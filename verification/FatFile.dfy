/** Open files: byte-level reading, writing, seeking and truncating over a cluster chain,
    with one sector buffer per file and direct transfers of whole sectors. */
module FatFile {
  import opened Bytes
  import opened FatEntry
  import opened FatVolume
  import opened FatHeap
  import opened FatChain
  import opened FatData
  import opened FatFileState
  import opened FatApart
  import D = FatDirState

  class Fil {
    const fs: FatFs
    const buf: array<byte>
    const dirSect: nat
    const dirOff: nat
    const canRead: bool
    const canWrite: bool
    var dirty: bool
    var written: bool
    var err: FResult
    var fptr: nat
    var fsize: nat
    var sclust: nat
    var clust: nat
    var dsect: nat
    ghost var chain: seq<nat>

    ghost function S(): FState
      reads `chain, `dsect, `dirty, `sclust, `clust, `fptr, `fsize, buf, fs`fat, fs`media, fs`winsect
    {
      FState(fs.fat, fs.media, fs.winsect, chain, buf[..], dsect, dirty, sclust, clust, fptr, fsize)
    }

    /** The volume is sound and shares no buffer with the file. */
    ghost predicate Ready()
      reads fs, fs.win
    {
      fs.Valid() && buf != fs.win && buf.Length == 512
    }

    /** A file between two calls. */
    ghost predicate OK()
      reads `chain, `dsect, `dirty, `sclust, `clust, `fptr, `fsize, buf, fs, fs.win
    {
      Ready() && FileOK(fs.g, S())
    }

    /** No prefix of the stores leaves a dangling link on the drive; FAT16 and FAT32 only. */
    ghost predicate CutsOK()
      reads fs`cuts
    {
      CutsHold(fs.g.fsType, fs.cuts)
    }

    /** The free count is unknown or right. */
    ghost predicate CountOK()
      reads fs`fat, fs`freeClust
    {
      Exact(fs.freeClust, fs.fat)
    }

    lemma HeapFacts()
      ensures CutsOK() <==> CutsHold(fs.g.fsType, fs.cuts)
      ensures CountOK() <==> Exact(fs.freeClust, fs.fat)
    {
    }

    /** The end of a successful open: start cluster and size come from the directory entry, which the
        window is still on. */
    constructor (fs: FatFs, buf: array<byte>, canRead: bool, canWrite: bool, changed: bool, sclust: nat, fsize: nat,
                 dirOff: nat, ghost chain: seq<nat>, ghost dir: nat, ghost dirChain: seq<nat>)
      requires fs.Valid() && buf != fs.win && buf.Length == 512 && DataFits(fs.g) && HeapOK(fs.fat)
      requires Starts(fs.fat, sclust, chain) && fsize <= 512 * Times(|chain|, fs.g.csize)
      requires D.TableOK(fs.g, fs.fat, dir, dirChain) && fs.winsect in D.Reach(fs.g, dirChain)
      requires NoneShared(dirChain, chain)
      ensures OK() && this.fs == fs && this.buf == buf && this.canRead == canRead && this.canWrite == canWrite
      ensures err == FR_OK
      ensures this.chain == chain && this.fsize == fsize && fptr == 0 && this.dirSect == fs.winsect
      ensures this.dirOff == dirOff
      ensures this.sclust == sclust && !dirty && written == changed
      ensures Good(fs.g, S()) && S() == Opened(fs.fat, fs.media, fs.winsect, chain, buf[..], sclust, fsize)
    {
      hide *;
      this.fs, this.buf, this.dirSect, this.dirOff := fs, buf, fs.winsect, dirOff;
      this.canRead, this.canWrite := canRead, canWrite;
      dirty, written, err := false, changed, FR_OK;
      this.sclust, this.fsize, fptr, dsect, clust := sclust, fsize, 0, 0, 0;
      this.chain := chain;
      new;
      SIs();
      fs.Facts();
      OpenedIs(fs.fat, fs.media, fs.winsect, chain, buf[..], sclust, fsize);
      D.OpenedOK(fs.g, fs.fat, fs.media, fs.winsect, chain, buf[..], sclust, fsize, dir, dirChain);
      ReadyIntro();
      OKIntro();
    }

    lemma OKIs()
      requires OK()
      ensures Ready() && FileOK(fs.g, S()) && Core(fs.g, S()) && fs.g.csize >= 1
      ensures fsize <= 512 * |Secs(fs.g, chain)| && Clusters(fs.g, chain)
      ensures fs.Valid() && buf != fs.win && buf.Length == 512
    {
    }

    lemma OKIntro()
      requires Ready() && FileOK(fs.g, S())
      ensures OK()
    {
    }

    lemma ReadyIntro()
      requires fs.Valid() && buf != fs.win && buf.Length == 512
      ensures Ready()
    {
    }

    lemma ReadyIs()
      requires Ready()
      ensures fs.Valid() && buf != fs.win && buf.Length == 512
    {
    }

    lemma AllOnesPositive()
      ensures ALL_ONES != 0
    {
    }

    lemma SIs()
      ensures S() == FState(fs.fat, fs.media, fs.winsect, chain, buf[..], dsect, dirty, sclust, clust, fptr, fsize)
    {
    }

    // ---------- The sector buffer ----------

    /** Write the dirty buffer back. */
    method Flush() returns (res: FResult)
      requires Ready() && Core(fs.g, S()) && dirty
      modifies `dirty, fs`media, fs`faults, fs`direct
      ensures Ready() && Core(fs.g, S()) && Stored(fs.g, S()) == old(Stored(fs.g, S()))
      ensures res == FR_OK ==> !dirty && fs.faults == old(fs.faults)
      ensures res != FR_OK ==> res == FR_DISK_ERR && fs.faults > old(fs.faults)
      ensures Stays(fs.g, old(S()), old(fs.Now()), S(), fs.Now(), res == FR_OK)
      ensures DataStep(old(dsect), 1, old(fs.Now()), fs.Now())
      ensures res == FR_OK ==> fs.media == old(Disk(S()))
    {
      hide *;
      SIs();
      ReadyIs();
      fs.Facts();
      ghost var s0, a := S(), fs.Now();
      DirtyBuffer(fs.g, s0);
      var ok := fs.WriteData(dsect, buf[..]);
      ReadyIntro();
      SIs();
      DiskDirty(s0);
      if !ok {
        res := FR_DISK_ERR;
        FlushStays(fs.g, s0, S(), a, fs.Now(), false);
      } else {
        dirty := false;
        res := FR_OK;
        SIs();
        FlushKeeps(fs.g, s0, S());
        FullIs(S());
        FlushStays(fs.g, s0, S(), a, fs.Now(), true);
      }
    }

    /** Write the buffer back if it is dirty, then fill it from sector `q` of the file. */
    method LoadSector(sect: nat, ghost q: nat) returns (res: FResult)
      requires Ready() && Core(fs.g, S()) && q < |Secs(fs.g, chain)| && sect == Secs(fs.g, chain)[q]
      modifies `dirty, `dsect, buf, fs`media, fs`faults, fs`direct
      ensures Ready() && fs.faults >= old(fs.faults)
      ensures res == FR_OK || (res == FR_DISK_ERR && fs.faults > old(fs.faults))
      ensures res == FR_OK ==> Core(fs.g, S()) && Stored(fs.g, S()) == old(Stored(fs.g, S())) && dsect == sect
      ensures Stays(fs.g, old(S()), old(fs.Now()), S(), fs.Now(), res == FR_OK)
      ensures res == FR_OK ==> Reloaded(fs.g, old(S()), S()) && DiskKept(fs.g, old(S()), S())
      ensures dirty ==> old(dirty)
    {
      hide *;
      SIs();
      ReadyIs();
      fs.Facts();
      ghost var s0, a := S(), fs.Now();
      StaysSame(fs.g, s0, s0, a, true);
      CoreIs(fs.g, s0);
      SectorInChain(fs.g, s0, q);
      res := FR_OK;
      DiskSame(fs.g, s0, s0);
      ReloadedSame(fs.g, s0, s0);
      if dsect != sect {
        if dirty { res := Flush(); }
        if res == FR_OK {
          ReadyIs();
          SIs();
          ghost var s1 := S();
          ghost var a1 := fs.Now();
          var ok := fs.ReadData(buf, sect);
          ReadyIntro();
          if !ok {
            res := FR_DISK_ERR;
          } else {
            dsect := sect;
          }
          SIs();
          if ok { FullIs(S()); }
          StaysSame(fs.g, s1, S(), a1, ok);
          StaysTrans(fs.g, s0, a, s1, a1, S(), fs.Now(), ok);
          if ok {
            LoadKeeps(fs.g, s1, S(), q);
            if !s0.dirty { DiskClean(s0); }
            DiskFlushed(fs.g, s0, S());
            ReloadedIntro(fs.g, s0, S());
          }
        }
      }
    }

    // ---------- Reading ----------

    /** The current cluster and sector for a position on a sector boundary inside the file. */
    method LocateForRead() returns (res: FResult, sect: nat)
      requires OK() && fptr % 512 == 0 && fptr < fsize
      modifies `clust, fs`winsect, fs`wflag, fs`media, fs`durable, fs`faults, fs.win
      ensures Ready() && fs.faults >= old(fs.faults)
      ensures res == FR_OK || (res == FR_DISK_ERR && fs.faults > old(fs.faults))
      ensures res == FR_OK ==> AtSector(fs.g, S(), fptr / 512) && sect == Secs(fs.g, chain)[fptr / 512]
      ensures res == FR_OK ==> Stored(fs.g, S()) == old(Stored(fs.g, S()))
      ensures Stays(fs.g, old(S()), old(fs.Now()), S(), fs.Now(), res == FR_OK)
      ensures res == FR_OK ==> MediaStep(fs.g, old(S()), S())
    {
      hide *;
      SIs();
      OKIs();
      fs.Facts();
      var q := fptr / 512;
      var csect := q % fs.g.csize;
      res, sect := FR_INT_ERR, 0;
      ghost var s0, a0 := S(), fs.Now();
      NextCluster(fs.g, s0, q);
      var clst := clust;
      if csect == 0 {
        if fptr == 0 {
          clst := sclust;
        } else {
          ghost var a := fs.Now();
          clst := fs.GetFat(clust);
          SIs();
          fs.Facts();
          MediaOfFat(fs.g, a, fs.Now(), s0, S());
          FatReadKeeps(fs.g, s0, S());
          ReadyIntro();
        }
      }
      if clst == ALL_ONES {
        res := FR_DISK_ERR;
      } else if clst >= 2 {
        SIs();
        ghost var s1 := S();
        clust := clst;
        SIs();
        SetCluster(fs.g, s1, S(), q);
        Clust2SectIs(fs.g, clst);
        sect := Clust2Sect(fs.g, clst);
        if sect != 0 {
          sect := sect + csect;
          res := FR_OK;
        }
      }
      SIs();
      FatStays(fs.g, s0, S(), a0, fs.Now(), res == FR_OK);
      MediaOfFat(fs.g, a0, fs.Now(), s0, S());
    }

    /** Whole sectors from `sect` on, straight to the caller, at most to the end of the cluster. */
    method ReadDirect(sect: nat, btr: nat) returns (res: FResult, chunk: seq<byte>)
      requires Ready() && fptr % 512 == 0 && AtSector(fs.g, S(), fptr / 512) && sect == Secs(fs.g, chain)[fptr / 512]
      requires 512 <= btr
      modifies `fptr, fs`faults
      ensures Ready() && fs.faults >= old(fs.faults)
      ensures res == FR_OK || (res == FR_DISK_ERR && fs.faults > old(fs.faults))
      ensures res == FR_OK ==> OK() && 0 < |chunk| <= btr && fptr == old(fptr) + |chunk|
      ensures res == FR_OK ==> Stored(fs.g, S()) == old(Stored(fs.g, S()))
      ensures res == FR_OK ==> fptr <= |Stored(fs.g, S())| && Holds(Stored(fs.g, S()), old(fptr), chunk)
      ensures Stays(fs.g, old(S()), old(fs.Now()), S(), fs.Now(), res == FR_OK)
    {
      hide *;
      SIs();
      ReadyIs();
      ghost var s0, q := S(), fptr / 512;
      AtSectorIs(fs.g, s0, q);
      var cc := DirectCount(fs.g.csize, fptr / 512 % fs.g.csize, btr);
      var ok, data := fs.ReadSectors(sect, cc);
      ReadyIntro();
      chunk := [];
      res := FR_DISK_ERR;
      if ok {
        res := FR_OK;
        chunk := WithDirty(data, dirty, dsect, sect, cc, buf[..]);
        DirectRead(fs.g, s0, s0.(fptr := fptr + 512 * cc), q, cc, data);
        HoldsSlice(Stored(fs.g, s0), s0.fptr, 512 * cc);
        fptr := fptr + 512 * cc;
        SIs();
        OKIntro();
      }
      SIs();
      StaysSame(fs.g, s0, S(), fs.Now(), res == FR_OK);
    }

    /** Load the sector of a position on a sector boundary. */
    method LoadAt(sect: nat) returns (res: FResult)
      requires Ready() && fptr % 512 == 0 && AtSector(fs.g, S(), fptr / 512) && sect == Secs(fs.g, chain)[fptr / 512]
      modifies `dirty, `dsect, buf, fs`media, fs`faults, fs`direct
      ensures Ready() && fs.faults >= old(fs.faults)
      ensures res == FR_OK || (res == FR_DISK_ERR && fs.faults > old(fs.faults))
      ensures res == FR_OK ==> InBuffer(fs.g, S()) && Stored(fs.g, S()) == old(Stored(fs.g, S()))
      ensures Stays(fs.g, old(S()), old(fs.Now()), S(), fs.Now(), res == FR_OK)
      ensures res == FR_OK ==> Reloaded(fs.g, old(S()), S())
      ensures dirty ==> old(dirty)
    {
      hide *;
      SIs();
      ghost var s0, q := S(), fptr / 512;
      AtSectorIs(fs.g, s0, q);
      res := LoadSector(sect, q);
      SIs();
      if res == FR_OK { InBufferLoaded(fs.g, s0, S(), q); }
    }

    /** Bytes of the buffered sector from the position on. */
    method CopyOut(btr: nat) returns (chunk: seq<byte>)
      requires Ready() && InBuffer(fs.g, S()) && 0 < btr
      modifies `fptr
      ensures OK() && 0 < |chunk| <= btr && fptr == old(fptr) + |chunk|
      ensures Stored(fs.g, S()) == old(Stored(fs.g, S()))
      ensures fptr <= |Stored(fs.g, S())| && FromBuffer(old(S()), S(), chunk)
      ensures old(Matched(fs.g, S(), fsize)) && fptr <= fsize ==> Holds(Stored(fs.g, S()), old(fptr), chunk)
      ensures Stays(fs.g, old(S()), old(fs.Now()), S(), fs.Now(), true)
      ensures |chunk| == SectorPart(old(fptr), btr)
    {
      hide *;
      SIs();
      ReadyIs();
      ghost var s0 := S();
      InBufferIs(fs.g, s0);
      var rcnt := SectorPart(fptr, btr);
      chunk := buf[fptr % 512..fptr % 512 + rcnt];
      assert buf[..][fptr % 512..fptr % 512 + rcnt] == chunk;
      if Matched(fs.g, s0, fsize) && fptr + rcnt <= fsize { MatchedLess(fs.g, s0, fsize, fptr + rcnt); }
      TakeFromBuffer(fs.g, s0, s0.(fptr := fptr + rcnt), rcnt);
      fptr := fptr + rcnt;
      SIs();
      StaysSame(fs.g, s0, S(), fs.Now(), true);
      TakenOut(s0, S(), rcnt);
      OKIntro();
      if Matched(fs.g, s0, fsize) && fptr <= fsize { HoldsSlice(Stored(fs.g, s0), s0.fptr, rcnt); }
    }

    /** At most `btr` bytes from the position, in one transfer. */
    method ReadChunk(btr: nat) returns (res: FResult, chunk: seq<byte>)
      requires OK() && 0 < btr && fptr + btr <= fsize
      modifies `clust, `dirty, `dsect, `fptr, buf, fs`winsect, fs`wflag, fs`media, fs`durable, fs`faults, fs`direct
      modifies fs.win
      ensures Ready() && fs.faults >= old(fs.faults)
      ensures res == FR_OK || (res == FR_DISK_ERR && fs.faults > old(fs.faults))
      ensures res == FR_OK ==> OK() && 0 < |chunk| <= btr && fptr == old(fptr) + |chunk|
      ensures res == FR_OK ==> Stored(fs.g, S()) == old(Stored(fs.g, S()))
      ensures res == FR_OK ==> fptr <= |Stored(fs.g, S())|
      ensures res == FR_OK && old(Matched(fs.g, S(), fsize)) ==> Holds(Stored(fs.g, S()), old(fptr), chunk)
      ensures Stays(fs.g, old(S()), old(fs.Now()), S(), fs.Now(), res == FR_OK)
      ensures res == FR_OK && old(Buffered(fs.g, S(), btr)) ==> |chunk| == btr && FromBuffer(old(S()), S(), chunk)
      ensures res == FR_OK && dsect != old(dsect) ==> Good(fs.g, S())
      ensures dirty ==> old(dirty)
    {
      hide *;
      if fptr % 512 == 0 {
        res, chunk := ReadBoundary(btr);
      } else {
        SIs();
        OKIs();
        ghost var s0 := S();
        CoreIs(fs.g, s0);
        res := FR_OK;
        InBufferIntro(fs.g, s0);
        chunk := CopyOut(btr);
        OKIs();
        SIs();
        TookOut(fs.g, s0, s0, S(), btr, chunk);
      }
    }

    /** The same at a sector boundary. */
    method ReadBoundary(btr: nat) returns (res: FResult, chunk: seq<byte>)
      requires OK() && 0 < btr && fptr + btr <= fsize && fptr % 512 == 0
      modifies `clust, `dirty, `dsect, `fptr, buf, fs`winsect, fs`wflag, fs`media, fs`durable, fs`faults, fs`direct
      modifies fs.win
      ensures Ready() && fs.faults >= old(fs.faults)
      ensures res == FR_OK || (res == FR_DISK_ERR && fs.faults > old(fs.faults))
      ensures res == FR_OK ==> OK() && 0 < |chunk| <= btr && fptr == old(fptr) + |chunk|
      ensures res == FR_OK ==> Stored(fs.g, S()) == old(Stored(fs.g, S()))
      ensures res == FR_OK ==> fptr <= |Stored(fs.g, S())|
      ensures res == FR_OK && old(Matched(fs.g, S(), fsize)) ==> Holds(Stored(fs.g, S()), old(fptr), chunk)
      ensures Stays(fs.g, old(S()), old(fs.Now()), S(), fs.Now(), res == FR_OK)
      ensures res == FR_OK && old(Buffered(fs.g, S(), btr)) ==> |chunk| == btr && FromBuffer(old(S()), S(), chunk)
      ensures res == FR_OK && dsect != old(dsect) ==> Good(fs.g, S())
      ensures dirty ==> old(dirty)
    {
      hide *;
      SIs();
      OKIs();
      fs.Facts();
      ghost var s0, a := S(), fs.Now();
      CoreIs(fs.g, s0);
      chunk := [];
      var sect;
      res, sect := LocateForRead();
      if res == FR_OK {
        SIs();
        ghost var s1, a1 := S(), fs.Now();
        StaysMatched(fs.g, s0, a, s1, a1, fsize);
        if btr >= 512 {
          NotBuffered(fs.g, s0, btr);
          res, chunk := ReadDirect(sect, btr);
          StaysTrans(fs.g, s0, a, s1, a1, S(), fs.Now(), res == FR_OK);
        } else {
          res, chunk := ReadPart(sect, btr);
          StaysTrans(fs.g, s0, a, s1, a1, S(), fs.Now(), res == FR_OK);
          if res == FR_OK { SIs(); BufferedAs(fs.g, s0, s1, btr); FromBufferAs(s0, s1, S(), chunk); }
        }
      }
    }

    /** Less than a sector, by way of the buffer. */
    method ReadPart(sect: nat, btr: nat) returns (res: FResult, chunk: seq<byte>)
      requires Ready() && fptr % 512 == 0 && AtSector(fs.g, S(), fptr / 512) && sect == Secs(fs.g, chain)[fptr / 512]
      requires 0 < btr < 512 && fptr + btr <= fsize
      modifies `dirty, `dsect, `fptr, buf, fs`media, fs`faults, fs`direct
      ensures Ready() && fs.faults >= old(fs.faults)
      ensures res == FR_OK || (res == FR_DISK_ERR && fs.faults > old(fs.faults))
      ensures res == FR_OK ==> OK() && 0 < |chunk| <= btr && fptr == old(fptr) + |chunk|
      ensures res == FR_OK ==> Stored(fs.g, S()) == old(Stored(fs.g, S())) && fptr <= |Stored(fs.g, S())|
      ensures res == FR_OK && old(Matched(fs.g, S(), fsize)) ==> Holds(Stored(fs.g, S()), old(fptr), chunk)
      ensures Stays(fs.g, old(S()), old(fs.Now()), S(), fs.Now(), res == FR_OK)
      ensures res == FR_OK && old(Buffered(fs.g, S(), btr)) ==> |chunk| == btr && FromBuffer(old(S()), S(), chunk)
      ensures res == FR_OK && dsect != old(dsect) ==> Good(fs.g, S())
      ensures dirty ==> old(dirty)
    {
      hide *;
      SIs();
      ReadyIs();
      fs.Facts();
      ghost var s1, a1 := S(), fs.Now();
      AtSectorIs(fs.g, s1, fptr / 512);
      CoreIs(fs.g, s1);
      chunk := [];
      res := LoadAt(sect);
      if res == FR_OK {
        ghost var s2, a2 := S(), fs.Now();
        StaysMatched(fs.g, s1, a1, s2, a2, fsize);
        SIs();
        InBufferIs(fs.g, s2);
        ReadFrom(fs.g, s1, s1, s2, btr);
        chunk := CopyOut(btr);
        SIs();
        TookOut(fs.g, s1, s2, S(), btr, chunk);
        StaysTrans(fs.g, s1, a1, s2, a2, S(), fs.Now(), true);
      }
    }

    /** Read at most `btr` bytes from the position: the rest of the abstract file if it is shorter. */
    method FRead(btr: nat) returns (res: FResult, data: seq<byte>)
      requires OK() && fptr <= fsize
      modifies `clust, `dirty, `dsect, `fptr, `err, buf, fs`winsect, fs`wflag, fs`media, fs`durable, fs`faults
      modifies fs`direct, fs.win
      ensures Ready() && fs.faults >= old(fs.faults)
      ensures old(err) != FR_OK ==> res == old(err) && S() == old(S())
      ensures old(err) == FR_OK && !canRead ==> res == FR_DENIED && S() == old(S())
      ensures old(err) == FR_OK && canRead ==> res == FR_OK || (res == FR_DISK_ERR == err && fs.faults > old(fs.faults))
      ensures res == FR_OK ==>
                && OK() && File(fs.g, S()) == old(File(fs.g, S()))
                && |data| == (if btr <= fsize - old(fptr) then btr else fsize - old(fptr))
                && fptr == old(fptr) + |data| <= fsize
      ensures res == FR_OK && old(Matched(fs.g, S(), fsize)) ==>
                Matched(fs.g, S(), fsize) && data == File(fs.g, S())[old(fptr)..fptr]
      ensures Stays(fs.g, old(S()), old(fs.Now()), S(), fs.Now(), res == FR_OK || res == FR_DENIED)
      ensures res == FR_OK || res == FR_DENIED ==> err == old(err)
      ensures res == FR_OK && old(Buffered(fs.g, S(), btr)) && |data| > 0 ==> FromBuffer(old(S()), S(), data)
      ensures res == FR_OK && dsect != old(dsect) ==> Good(fs.g, S())
      ensures dirty ==> old(dirty)
    {
      hide *;
      SIs();
      OKIs();
      data := [];
      fs.Facts();
      StaysSame(fs.g, S(), S(), fs.Now(), true);
      StaysSame(fs.g, S(), S(), fs.Now(), false);
      if err != FR_OK { return err, data; }
      if !canRead { return FR_DENIED, data; }
      var remain := fsize - fptr;
      var left: nat := if btr > remain then remain else btr;
      res := FR_OK;
      FileOf(fs.g, S());
      while left > 0 && res == FR_OK
        invariant Ready() && fs.faults >= old(fs.faults)
        invariant res == FR_OK || (res == FR_DISK_ERR == err && fs.faults > old(fs.faults))
        invariant res == FR_OK ==>
                  OK() && Core(fs.g, S()) && fptr + left == old(fptr) + (if btr > remain then remain else btr)
        invariant res == FR_OK ==> Stored(fs.g, S()) == old(Stored(fs.g, S())) && err == FR_OK
        invariant res == FR_OK ==> fptr == old(fptr) + |data| && fptr <= |Stored(fs.g, S())|
        invariant res == FR_OK && old(Matched(fs.g, S(), fsize)) ==>
                    Matched(fs.g, S(), fsize) && data == Stored(fs.g, S())[old(fptr)..fptr]
        invariant Stays(fs.g, old(S()), old(fs.Now()), S(), fs.Now(), res == FR_OK)
        invariant res == FR_OK && old(Buffered(fs.g, S(), btr)) ==>
                  (data == [] && S() == old(S())) || (left == 0 && FromBuffer(old(S()), S(), data))
        invariant res == FR_OK && dsect != old(dsect) ==> Good(fs.g, S())
        invariant dirty ==> old(dirty)
        decreases left, if res == FR_OK then 1 else 0
      {
        var chunk;
        SIs();
        ghost var p, s1, a1 := fptr, S(), fs.Now();
        res, chunk := ReadChunk(left);
        SIs();
        StaysTrans(fs.g, old(S()), old(fs.Now()), s1, a1, S(), fs.Now(), res == FR_OK);
        if res != FR_OK {
          err := res;
        } else {
          OKIs();
          if Matched(fs.g, s1, fsize) {
            StaysMatched(fs.g, s1, a1, S(), fs.Now(), fsize);
            HoldsIs(Stored(fs.g, S()), p, chunk);
          }
          ReadNext(fs.g, old(S()), s1, a1, S(), fs.Now(), btr, left, data, chunk);
          JoinSlices(Stored(fs.g, S()), old(fptr), p, fptr);
          data := data + chunk;
          left := left - |chunk|;
        }
      }
      if res == FR_OK {
        SIs();
        FileOf(fs.g, S());
        SliceOfPrefix(Stored(fs.g, S()), old(fptr), fptr, fsize);
      }
    }

    // ---------- Writing ----------

    /** The cluster of sector `q` of the file: the one that follows `arg`, or a new one. */
    method FollowOrGrow(arg: nat, ghost q: nat) returns (clst: nat)
      requires OK() && fptr == 512 * q && q % fs.g.csize == 0
      requires if q == 0 then arg == 0 && sclust == 0 else arg == clust
      modifies `sclust, `chain, fs`winsect, fs`wflag, fs`media, fs`durable, fs`faults, fs`log, fs`fat, fs`cuts, fs.win
      modifies fs`lastClust, fs`freeClust, fs`fsiFlag
      ensures Ready() && fs.faults >= old(fs.faults)
      ensures old(CutsOK()) ==> CutsOK()
      ensures clst != ALL_ONES && old(CountOK()) ==> CountOK()
      ensures clst == ALL_ONES ==> fs.faults > old(fs.faults)
      ensures clst == 0 ==> OK() && Stored(fs.g, S()) == old(Stored(fs.g, S())) && NoneFree(fs.fat)
      ensures clst == 0 ==> AtLimit(fs.g, S())
      ensures clst != ALL_ONES && clst != 0 ==> Core(fs.g, S()) && Clusters(fs.g, chain) && fs.g.csize >= 1 && 2 <= clst
      ensures clst != ALL_ONES && clst != 0 ==>
                q < |Secs(fs.g, chain)| && Home(fs.g, q) < |chain| && chain[Home(fs.g, q)] == clst
      ensures clst != ALL_ONES && clst != 0 ==> Grown(old(Stored(fs.g, S())), Stored(fs.g, S()))
      ensures Stays(fs.g, old(S()), old(fs.Now()), S(), fs.Now(), clst != ALL_ONES)
      ensures clst != ALL_ONES ==> MediaStep(fs.g, old(S()), S())
      ensures old(sclust) != 0 || clst == 0 ==> sclust == old(sclust)
    {
      hide *;
      SIs();
      OKIs();
      fs.Facts();
      HeapFacts();
      ghost var s0, a, l0 := S(), fs.Now(), fs.lastClust;
      CoreIs(fs.g, s0);
      clst := Grow(arg, q >= |Secs(fs.g, chain)|);
      ReadyIntro();
      fs.Facts();
      SIs();
      Keeps(s0, old(fs.cuts), old(fs.freeClust), clst != ALL_ONES);
      FileGrows(fs.g, s0, S(), q, arg, clst, SearchStart(arg, l0, fs.g.nFatent), fs.g.Kept(LAST_LINK), a, fs.Now());
      if clst == 0 { OKIntro(); AtLimitIntro(fs.g, S(), q); }
    }

    /** The allocation itself; a new cluster is recorded in the file object. */
    method Grow(arg: nat, ghost atEnd: bool) returns (clst: nat)
      requires fs.Valid() && buf != fs.win
      modifies `sclust, `chain, fs`winsect, fs`wflag, fs`media, fs`durable, fs`faults, fs`log, fs`fat, fs`cuts, fs.win
      modifies fs`lastClust, fs`freeClust, fs`fsiFlag
      ensures fs.Valid() && FatStep(fs.g, old(fs.Now()), fs.Now()) && fs.faults >= old(fs.faults)
      ensures |fs.fat| == |old(fs.fat)| <= fs.g.Kept(LAST_LINK) && Touched(old(fs.fat), fs.fat, arg)
      ensures clst == ALL_ONES ==> fs.faults > old(fs.faults)
      ensures clst != ALL_ONES ==> Created(old(fs.fat), fs.fat, arg, SearchStart(arg, old(fs.lastClust), fs.g.nFatent),
                                           fs.g.Kept(LAST_LINK), clst)
      ensures Sound(fs.g.fsType, old(fs.fat), fs.fat, old(fs.cuts), fs.cuts, old(fs.freeClust), fs.freeClust,
                    clst != ALL_ONES)
      ensures chain == if atEnd && clst != 0 && clst != ALL_ONES then old(chain) + [clst] else old(chain)
      ensures sclust == if old(sclust) == 0 && clst != 0 && clst != ALL_ONES then clst else old(sclust)
      ensures buf[..] == old(buf[..])
    {
      hide *;
      clst := CreateChain(fs, arg);
      if atEnd && clst != 0 && clst != ALL_ONES { chain := chain + [clst]; }
      if sclust == 0 && clst != 0 && clst != ALL_ONES { sclust := clst; }
    }

    /** The heap facts that an allocation or a release keeps, from the well-formed FAT of an open file. */
    lemma Keeps(s0: FState, cuts: seq<seq<nat>>, free: nat, ok: bool)
      requires Core(fs.g, s0) && Sound(fs.g.fsType, s0.fat, fs.fat, cuts, fs.cuts, free, fs.freeClust, ok)
      ensures CutsHold(fs.g.fsType, cuts) ==> CutsOK()
      ensures ok && Exact(free, s0.fat) ==> CountOK()
    {
      hide HeapOK, Sound, CutsHold, Exact;
      HeapOf(fs.g, s0);
      SoundIs(fs.g.fsType, s0.fat, fs.fat, cuts, fs.cuts, free, fs.freeClust, ok);
    }

    /** The dirty buffer is written back before the next sector is used. */
    method ReadySector() returns (res: FResult, sect: nat)
      requires Ready() && fptr % 512 == 0 && AtSector(fs.g, S(), fptr / 512)
      modifies `dirty, fs`media, fs`faults, fs`direct
      ensures Ready() && fs.faults >= old(fs.faults)
      ensures res == FR_OK || (res == FR_DISK_ERR && fs.faults > old(fs.faults))
      ensures res == FR_OK ==> AtSector(fs.g, S(), fptr / 512) && !dirty && sect == Secs(fs.g, chain)[fptr / 512]
      ensures res == FR_OK ==> Core(fs.g, S()) && old(Core(fs.g, S())) && Stored(fs.g, S()) == old(Stored(fs.g, S()))
      ensures Stays(fs.g, old(S()), old(fs.Now()), S(), fs.Now(), res == FR_OK)
    {
      hide *;
      SIs();
      ReadyIs();
      fs.Facts();
      ghost var s1, q := S(), fptr / 512;
      AtSectorIs(fs.g, s1, q);
      StaysSame(fs.g, s1, s1, fs.Now(), true);
      res, sect := FR_OK, 0;
      if dirty { res := Flush(); }
      SIs();
      if res == FR_OK {
        StillAt(fs.g, s1, S(), q);
        SectorOf(fs.g, S(), q);
        var base := Clust2Sect(fs.g, clust);
        sect := base + fptr / 512 % fs.g.csize;
      }
    }

    /** The current cluster and sector for writing at a position on a sector boundary, with the
        buffer written back; `full` if the drive has no cluster left for it. */
    method LocateForWrite() returns (res: FResult, full: bool, sect: nat)
      requires OK() && fptr % 512 == 0
      modifies `clust, `sclust, `chain, `dirty
      modifies fs`winsect, fs`wflag, fs`media, fs`durable, fs`faults, fs`direct, fs`log, fs`fat, fs`cuts, fs.win
      modifies fs`lastClust, fs`freeClust, fs`fsiFlag
      ensures Ready() && fs.faults >= old(fs.faults)
      ensures old(CutsOK()) ==> CutsOK()
      ensures res == FR_OK && old(CountOK()) ==> CountOK()
      ensures res == FR_OK || (res == FR_DISK_ERR && fs.faults > old(fs.faults))
      ensures res == FR_OK && full ==> OK() && Stored(fs.g, S()) == old(Stored(fs.g, S())) && NoneFree(fs.fat)
      ensures res == FR_OK && !full ==>
                AtSector(fs.g, S(), fptr / 512) && !dirty && sect == Secs(fs.g, chain)[fptr / 512]
      ensures res == FR_OK && !full ==> Grown(old(Stored(fs.g, S())), Stored(fs.g, S()))
      ensures Stays(fs.g, old(S()), old(fs.Now()), S(), fs.Now(), res == FR_OK)
      ensures res == FR_OK && full ==> AtLimit(fs.g, S())
    {
      hide *;
      OKIs();
      fs.Facts();
      ghost var s0, a := S(), fs.Now();
      res, full, sect := FR_OK, false, 0;
      full := EnterCluster();
      if !full {
        if clust == ALL_ONES {
          res := FR_DISK_ERR;
        } else {
          SIs();
          ghost var s1, q, a1 := S(), fptr / 512, fs.Now();
          AtSectorIs(fs.g, s1, q);
          res, sect := ReadySector();
          SIs();
          StaysTrans(fs.g, s0, a, s1, a1, S(), fs.Now(), res == FR_OK);
        }
      }
    }

    /** On a cluster boundary move on to the next cluster, extending the chain if need be; a
        drive error leaves all ones as the current cluster. */
    method EnterCluster() returns (full: bool)
      requires OK() && fptr % 512 == 0
      modifies `clust, `sclust, `chain
      modifies fs`winsect, fs`wflag, fs`media, fs`durable, fs`faults, fs`log, fs`fat, fs`cuts, fs.win
      modifies fs`lastClust, fs`freeClust, fs`fsiFlag
      ensures Ready() && fs.faults >= old(fs.faults)
      ensures old(CutsOK()) ==> CutsOK()
      ensures (full || clust != ALL_ONES) && old(CountOK()) ==> CountOK()
      ensures full ==> OK() && Stored(fs.g, S()) == old(Stored(fs.g, S())) && NoneFree(fs.fat)
      ensures !full && clust == ALL_ONES ==> fs.faults > old(fs.faults)
      ensures !full && clust != ALL_ONES ==>
                AtSector(fs.g, S(), fptr / 512) && Grown(old(Stored(fs.g, S())), Stored(fs.g, S()))
      ensures Stays(fs.g, old(S()), old(fs.Now()), S(), fs.Now(), full || clust != ALL_ONES)
      ensures full ==> AtLimit(fs.g, S())
    {
      hide *;
      SIs();
      OKIs();
      ghost var s0, q, a := S(), fptr / 512, fs.Now();
      fs.Facts();
      StaysSame(fs.g, s0, s0, a, true);
      CoreIs(fs.g, s0);
      GrownSame(Stored(fs.g, s0));
      full := false;
      if fptr / 512 % fs.g.csize == 0 {
        var clst := sclust;
        if fptr != 0 || clst == 0 {
          clst := FollowOrGrow(if fptr == 0 then 0 else clust, q);
          SIs();
          ReadyIs();
        } else {
          FirstSector(fs.g, s0);
        }
        if clst == 0 {
          full := true;
        } else {
          ghost var s1, a1 := S(), fs.Now();
          clust := clst;
          SIs();
          StaysAlso(fs.g, s0, a, s1, S(), a1, clust != ALL_ONES);
          if clst != ALL_ONES { SetCluster(fs.g, s1, S(), q); }
        }
      } else {
        MidCluster(fs.g, s0, q);
      }
    }

    /** Whole sectors from the caller straight to the drive, at most to the end of the cluster. */
    method WriteDirect(sect: nat, data: seq<byte>) returns (res: FResult, n: nat)
      requires Ready() && fptr % 512 == 0 && AtSector(fs.g, S(), fptr / 512) && !dirty
      requires sect == Secs(fs.g, chain)[fptr / 512] && 512 <= |data|
      modifies `fptr, buf, fs`media, fs`faults, fs`direct
      ensures Ready() && fs.faults >= old(fs.faults)
      ensures res == FR_OK || (res == FR_DISK_ERR && fs.faults > old(fs.faults))
      ensures res == FR_OK ==> OK() && 0 < n <= |data| && fptr == old(fptr) + n
      ensures res == FR_OK ==>
                WroteAt(old(Stored(fs.g, S())), Stored(fs.g, S()), old(fptr), data[..n], |old(Stored(fs.g, S()))|)
      ensures Stays(fs.g, old(S()), old(fs.Now()), S(), fs.Now(), res == FR_OK)
      ensures res == FR_OK && old(Matched(fs.g, S(), Known(fptr, fsize))) ==> Matched(fs.g, S(), Known(fptr, fsize))
    {
      hide *;
      SIs();
      ReadyIs();
      fs.Facts();
      ghost var s0, q, a := S(), fptr / 512, fs.Now();
      AtSectorIs(fs.g, s0, q);
      CoreIs(fs.g, s0);
      var cc := DirectCount(fs.g.csize, fptr / 512 % fs.g.csize, |data|);
      n := 512 * cc;
      RunOffWindow(fs.g, s0, q, cc);
      var ok := fs.WriteSectors(sect, cc, data[..n]);
      ReadyIntro();
      fs.Facts();
      res := FR_DISK_ERR;
      if ok {
        res := FR_OK;
        var fill := Refilled(buf[..], dsect, sect, cc, data[..n]);
        CopyBytes(buf, 0, fill);
        SpliceAll(old(buf[..]), fill);
        fptr := fptr + n;
        SIs();
        SentDirectly(fs.g, s0, S(), a, fs.Now(), q, cc, data[..n]);
        OKIntro();
      } else {
        SIs();
        RunStays(fs.g, s0, S(), a, fs.Now(), q, cc, false);
      }
    }

    /** Bytes into the buffered sector. */
    method PutIn(data: seq<byte>, ghost keep: nat)
      requires Ready() && InBuffer(fs.g, S()) && 0 < |data| <= 512 - fptr % 512
      modifies `dirty, `fptr, buf
      ensures OK() && fptr == old(fptr) + |data|
      ensures old(Matched(fs.g, S(), keep)) ==>
                WroteAt(old(Stored(fs.g, S())), Stored(fs.g, S()), old(fptr), data, keep)
      ensures dirty
      ensures Stays(fs.g, old(S()), old(fs.Now()), S(), fs.Now(), true)
    {
      hide *;
      SIs();
      ReadyIs();
      ghost var s0 := S();
      InBufferIs(fs.g, s0);
      ghost var fptr0 := fptr;
      CopyBytes(buf, fptr % 512, data);
      dirty := true;
      fptr := fptr + |data|;
      SIs();
      PutWrote(fs.g, s0, S(), data, keep);
      BufferStays(fs.g, s0, S(), fs.Now(), fptr0 / 512);
      ReadyIntro();
      OKIntro();
    }

    /** A partial sector at a sector boundary: the buffer moves there, and is filled from the
        drive unless the position is at or past the end of the file. */
    method PutAt(sect: nat, data: seq<byte>) returns (res: FResult)
      requires Ready() && fptr % 512 == 0 && AtSector(fs.g, S(), fptr / 512) && !dirty
      requires sect == Secs(fs.g, chain)[fptr / 512] && 0 < |data| < 512
      modifies `dirty, `dsect, `fptr, buf, fs`faults, fs`media, fs`direct
      ensures Ready() && fs.faults >= old(fs.faults)
      ensures res == FR_OK || (res == FR_DISK_ERR && fs.faults > old(fs.faults))
      ensures res == FR_OK ==> OK() && dirty && fptr == old(fptr) + |data|
      ensures res == FR_OK && old(Matched(fs.g, S(), Known(fptr, fsize))) ==>
                WroteAt(old(Stored(fs.g, S())), Stored(fs.g, S()), old(fptr), data, old(Known(fptr, fsize)))
      ensures Stays(fs.g, old(S()), old(fs.Now()), S(), fs.Now(), res == FR_OK)
    {
      hide *;
      SIs();
      ReadyIs();
      fs.Facts();
      ghost var s0, q, a := S(), fptr / 512, fs.Now();
      AtSectorIs(fs.g, s0, q);
      CoreIs(fs.g, s0);
      KnownIs(fptr, fptr, fsize);
      if fptr < fsize {
        res := LoadAt(sect);
        if res == FR_OK {
          SIs();
          InBufferIs(fs.g, S());
          ghost var s1, a1 := S(), fs.Now();
          StaysMatched(fs.g, s0, a, s1, a1, fsize);
          PutIn(data, fsize);
          StaysTrans(fs.g, s0, a, s1, a1, S(), fs.Now(), true);
        }
      } else {
        res := FR_OK;
        dsect := sect;
        CopyBytes(buf, 0, data);
        dirty := true;
        fptr := fptr + |data|;
        SIs();
        PutAtEdge(fs.g, s0, S(), q, data);
        BufferStays(fs.g, s0, S(), fs.Now(), q);
        ReadyIntro();
        OKIntro();
      }
    }

    /** At most all of `data` at the position, in one transfer; nothing if the drive is full. */
    method WriteChunk(data: seq<byte>) returns (res: FResult, n: nat)
      requires OK() && 0 < |data|
      modifies `clust, `sclust, `chain, `dirty, `dsect, `fptr, buf
      modifies fs`winsect, fs`wflag, fs`media, fs`durable, fs`faults, fs`direct, fs`log, fs`fat, fs`cuts, fs.win
      modifies fs`lastClust, fs`freeClust, fs`fsiFlag
      ensures Ready() && fs.faults >= old(fs.faults)
      ensures old(CutsOK()) ==> CutsOK()
      ensures res == FR_OK && old(CountOK()) ==> CountOK()
      ensures res == FR_OK || (res == FR_DISK_ERR && fs.faults > old(fs.faults))
      ensures res == FR_OK ==>
                OK() && n <= |data| && fptr == old(fptr) + n && (n == 0 ==> NoneFree(fs.fat) && AtLimit(fs.g, S()))
      ensures res == FR_OK && old(Matched(fs.g, S(), Known(fptr, fsize))) ==>
                && Matched(fs.g, S(), Known(fptr, fsize))
                && WroteAt(old(Stored(fs.g, S())), Stored(fs.g, S()), old(fptr), data[..n], old(Known(fptr, fsize)))
      ensures Stays(fs.g, old(S()), old(fs.Now()), S(), fs.Now(), res == FR_OK)
    {
      hide *;
      SIs();
      OKIs();
      if fptr % 512 == 0 {
        res, n := WriteBoundary(data);
      } else {
        res := FR_OK;
        InBufferIntro(fs.g, S());
        n := if |data| < 512 - fptr % 512 then |data| else 512 - fptr % 512;
        PutIn(data[..n], Known(fptr, fsize));
        SIs();
        MatchedDirty(fs.g, S(), Known(fptr, fsize));
      }
    }

    /** The same at a sector boundary. */
    method WriteBoundary(data: seq<byte>) returns (res: FResult, n: nat)
      requires OK() && 0 < |data| && fptr % 512 == 0
      modifies `clust, `sclust, `chain, `dirty, `dsect, `fptr, buf
      modifies fs`winsect, fs`wflag, fs`media, fs`durable, fs`faults, fs`direct, fs`log, fs`fat, fs`cuts, fs.win
      modifies fs`lastClust, fs`freeClust, fs`fsiFlag
      ensures Ready() && fs.faults >= old(fs.faults)
      ensures old(CutsOK()) ==> CutsOK()
      ensures res == FR_OK && old(CountOK()) ==> CountOK()
      ensures res == FR_OK || (res == FR_DISK_ERR && fs.faults > old(fs.faults))
      ensures res == FR_OK ==>
                OK() && n <= |data| && fptr == old(fptr) + n && (n == 0 ==> NoneFree(fs.fat) && AtLimit(fs.g, S()))
      ensures res == FR_OK && old(Matched(fs.g, S(), Known(fptr, fsize))) ==>
                && Matched(fs.g, S(), Known(fptr, fsize))
                && WroteAt(old(Stored(fs.g, S())), Stored(fs.g, S()), old(fptr), data[..n], old(Known(fptr, fsize)))
      ensures Stays(fs.g, old(S()), old(fs.Now()), S(), fs.Now(), res == FR_OK)
    {
      hide *;
      SIs();
      OKIs();
      CoreIs(fs.g, S());
      fs.Facts();
      ghost var s0, a := S(), fs.Now();
      n := 0;
      var full, sect;
      ghost var st0, keep := Stored(fs.g, S()), Known(fptr, fsize);
      KnownIs(fptr, fptr, fsize);
      res, full, sect := LocateForWrite();
      if res == FR_OK {
        SIs();
        StaysMatched(fs.g, s0, a, S(), fs.Now(), keep);
        if full {
          WroteNothing(st0, fptr, keep);
        } else {
          AtSectorIs(fs.g, S(), fptr / 512);
          ghost var st1, s1, a1 := Stored(fs.g, S()), S(), fs.Now();
          res, n := WriteLocated(sect, data);
          StaysTrans(fs.g, s0, a, s1, a1, S(), fs.Now(), res == FR_OK);
          if res == FR_OK {
            OKIs();
            GrownWrote(st0, st1, Stored(fs.g, S()), old(fptr), data[..n], keep);
          }
        }
      }
    }

    method WriteLocated(sect: nat, data: seq<byte>) returns (res: FResult, n: nat)
      requires Ready() && fptr % 512 == 0 && AtSector(fs.g, S(), fptr / 512) && !dirty
      requires sect == Secs(fs.g, chain)[fptr / 512] && 0 < |data|
      modifies `dirty, `dsect, `fptr, buf, fs`faults, fs`media, fs`direct
      ensures Ready() && fs.faults >= old(fs.faults)
      ensures res == FR_OK || (res == FR_DISK_ERR && fs.faults > old(fs.faults))
      ensures res == FR_OK ==> OK() && 0 < n <= |data| && fptr == old(fptr) + n
      ensures res == FR_OK && old(Matched(fs.g, S(), Known(fptr, fsize))) ==>
                && Matched(fs.g, S(), Known(fptr, fsize))
                && WroteAt(old(Stored(fs.g, S())), Stored(fs.g, S()), old(fptr), data[..n], old(Known(fptr, fsize)))
      ensures Stays(fs.g, old(S()), old(fs.Now()), S(), fs.Now(), res == FR_OK)
    {
      hide *;
      AtSectorIs(fs.g, S(), fptr / 512);
      CoreIs(fs.g, S());
      ghost var st1 := Stored(fs.g, S());
      KnownIs(fptr, fptr, fsize);
      if |data| >= 512 {
        res, n := WriteDirect(sect, data);
        if res == FR_OK {
          OKIs();
          WroteLess(st1, Stored(fs.g, S()), old(fptr), data[..n], |st1|, old(Known(fptr, fsize)));
        }
      } else {
        res := PutAt(sect, data);
        n := |data|;
        assert data[..n] == data;
        if res == FR_OK {
          SIs();
          MatchedDirty(fs.g, S(), Known(fptr, fsize));
        }
      }
    }

    /** The part of a write behind its checks. */
    method WriteSome(data: seq<byte>, btw: nat) returns (res: FResult, bw: nat)
      requires OK() && fptr <= fsize <= ALL_ONES && btw <= |data| && fptr + btw <= ALL_ONES && canWrite
      modifies `clust, `sclust, `chain, `dirty, `dsect, `fptr, `fsize, `written, buf
      modifies fs`winsect, fs`wflag, fs`media, fs`durable, fs`faults, fs`direct, fs`log, fs`fat, fs`cuts, fs.win
      modifies fs`lastClust, fs`freeClust, fs`fsiFlag
      ensures res != FR_OK ==> written == old(written)
      ensures Ready() && fs.faults >= old(fs.faults)
      ensures old(CutsOK()) ==> CutsOK()
      ensures res == FR_OK && old(CountOK()) ==> CountOK()
      ensures res == FR_OK || (res == FR_DISK_ERR && fs.faults > old(fs.faults))
      ensures res == FR_OK ==>
                && OK() && written && bw <= btw
                && fptr == old(fptr) + bw <= fsize <= ALL_ONES
                && fsize == (if fptr > old(fsize) then fptr else old(fsize))
      ensures res == FR_OK && old(Matched(fs.g, S(), fsize)) ==>
                Matched(fs.g, S(), fsize) && File(fs.g, S()) == Overwrite(old(File(fs.g, S())), old(fptr), data[..bw])
      ensures res == FR_OK ==> bw == btw || (NoneFree(fs.fat) && AtLimit(fs.g, S()))
      ensures Stays(fs.g, old(S()), old(fs.Now()), S(), fs.Now(), res == FR_OK)
    {
      hide *;
      SIs();
      OKIs();
      fs.Facts();
      res, bw := WriteLoop(data[..btw]);
      if res == FR_OK {
        assert data[..btw][..bw] == data[..bw];
        OKIs();
        KnownIs(old(fptr), fptr, fsize);
        if old(Matched(fs.g, S(), fsize)) {
          WroteIsOverwrite(old(Stored(fs.g, S())), Stored(fs.g, S()), old(fptr), data[..bw], fsize);
        }
        FileOf(fs.g, old(S()));
        SIs();
        ghost var s1, a1 := S(), fs.Now();
        CommitSize();
        SIs();
        AtLimitKept(fs.g, s1, S());
        StaysTrans(fs.g, old(S()), old(fs.Now()), s1, a1, S(), fs.Now(), true);
      }
    }

    /** Write `data` at the position: the abstract file is overwritten and extended by the bytes
        written, which are all of them unless the drive is full or the file would pass 4 GB. */
    method FWrite(data: seq<byte>) returns (res: FResult, bw: nat)
      requires OK() && fptr <= fsize <= ALL_ONES && |data| <= ALL_ONES
      modifies `clust, `sclust, `chain, `dirty, `dsect, `fptr, `fsize, `written, `err, buf
      modifies fs`winsect, fs`wflag, fs`media, fs`durable, fs`faults, fs`direct, fs`log, fs`fat, fs`cuts, fs.win
      modifies fs`lastClust, fs`freeClust, fs`fsiFlag
      ensures res != FR_OK ==> written == old(written)
      ensures Ready() && fs.faults >= old(fs.faults)
      ensures old(CutsOK()) ==> CutsOK()
      ensures (res == FR_OK || res == FR_DENIED) && old(CountOK()) ==> CountOK()
      ensures old(err) != FR_OK ==> res == old(err) && S() == old(S())
      ensures old(err) == FR_OK && !canWrite ==> res == FR_DENIED && S() == old(S())
      ensures old(err) == FR_OK && canWrite ==>
                res == FR_OK || (res == FR_DISK_ERR == err && fs.faults > old(fs.faults))
      ensures res == FR_OK ==>
                && OK() && written && bw <= |data|
                && fptr == old(fptr) + bw <= fsize <= ALL_ONES
                && fsize == (if fptr > old(fsize) then fptr else old(fsize))
      ensures res == FR_OK && old(Matched(fs.g, S(), fsize)) ==>
                Matched(fs.g, S(), fsize) && File(fs.g, S()) == Overwrite(old(File(fs.g, S())), old(fptr), data[..bw])
      ensures res == FR_OK ==>
                bw == |data| || (NoneFree(fs.fat) && AtLimit(fs.g, S())) || (bw == 0 && old(fptr) + |data| > ALL_ONES)
      ensures Stays(fs.g, old(S()), old(fs.Now()), S(), fs.Now(), res == FR_OK || res == FR_DENIED)
      ensures res == FR_OK || res == FR_DENIED ==> err == old(err)
    {
      hide *;
      SIs();
      OKIs();
      bw := 0;
      StaysSame(fs.g, S(), S(), fs.Now(), true);
      StaysSame(fs.g, S(), S(), fs.Now(), false);
      if err != FR_OK { return err, bw; }
      if !canWrite { return FR_DENIED, bw; }
      WrappedSize(fptr, |data|);
      var btw := if (fptr + |data|) % 0x1_0000_0000 < fptr then 0 else |data|;
      res, bw := WriteSome(data, btw);
      if res != FR_OK { err := res; }
    }

    /** Let the file size catch up with the position. */
    method CommitSize()
      requires OK()
      modifies `fsize, `written
      ensures OK() && written && fsize == (if fptr > old(fsize) then fptr else old(fsize))
      ensures old(fsize) <= fsize <= |old(Stored(fs.g, S()))| && File(fs.g, S()) == old(Stored(fs.g, S()))[..fsize]
      ensures Stays(fs.g, old(S()), old(fs.Now()), S(), fs.Now(), true)
      ensures old(Matched(fs.g, S(), Known(fptr, fsize))) ==> Matched(fs.g, S(), fsize)
    {
      hide *;
      SIs();
      OKIs();
      ghost var s0 := S();
      CoreIs(fs.g, s0);
      SetSize(fs.g, s0, if fptr > fsize then fptr else fsize);
      if fptr > fsize { fsize := fptr; }
      written := true;
      SIs();
      StaysSame(fs.g, s0, S(), fs.Now(), true);
      KnownIs(fptr, fptr, s0.fsize);
      if Matched(fs.g, s0, fsize) { SizeMatched(fs.g, s0, S(), fsize); }
      OKIntro();
      OKIs();
      FileOf(fs.g, S());
    }

    method WriteLoop(data: seq<byte>) returns (res: FResult, bw: nat)
      requires OK() && fptr <= fsize
      modifies `clust, `sclust, `chain, `dirty, `dsect, `fptr, buf
      modifies fs`winsect, fs`wflag, fs`media, fs`durable, fs`faults, fs`direct, fs`log, fs`fat, fs`cuts, fs.win
      modifies fs`lastClust, fs`freeClust, fs`fsiFlag
      ensures Ready() && fs.faults >= old(fs.faults)
      ensures old(CutsOK()) ==> CutsOK()
      ensures res == FR_OK && old(CountOK()) ==> CountOK()
      ensures res == FR_OK || (res == FR_DISK_ERR && fs.faults > old(fs.faults))
      ensures res == FR_OK ==>
                && OK() && bw <= |data| && fptr == old(fptr) + bw
                && (bw == |data| || (NoneFree(fs.fat) && AtLimit(fs.g, S())))
      ensures res == FR_OK && old(Matched(fs.g, S(), fsize)) ==>
                && Matched(fs.g, S(), Known(fptr, fsize))
                && WroteAt(old(Stored(fs.g, S())), Stored(fs.g, S()), old(fptr), data[..bw], fsize)
      ensures Stays(fs.g, old(S()), old(fs.Now()), S(), fs.Now(), res == FR_OK)
    {
      hide *;
      SIs();
      OKIs();
      CoreIs(fs.g, S());
      fs.Facts();
      StaysSame(fs.g, S(), S(), fs.Now(), true);
      res, bw := FR_OK, 0;
      var full := false;
      ghost var st0 := Stored(fs.g, S());
      WroteNothing(st0, fptr, fsize);
      KnownIs(fptr, fptr, fsize);
      assert data[..0] == [];
      while bw < |data| && res == FR_OK && !full
        invariant Ready() && fs.faults >= old(fs.faults) && bw <= |data|
        invariant old(CutsOK()) ==> CutsOK()
        invariant res == FR_OK && old(CountOK()) ==> CountOK()
        invariant res == FR_OK || (res == FR_DISK_ERR && fs.faults > old(fs.faults))
        invariant res == FR_OK ==>
                  OK() && Core(fs.g, S()) && fptr == old(fptr) + bw && (full ==> NoneFree(fs.fat) && AtLimit(fs.g, S()))
        invariant res == FR_OK && old(Matched(fs.g, S(), fsize)) ==>
                    && Matched(fs.g, S(), Known(fptr, fsize))
                    && WroteAt(st0, Stored(fs.g, S()), old(fptr), data[..bw], fsize)
        invariant Stays(fs.g, old(S()), old(fs.Now()), S(), fs.Now(), res == FR_OK)
        decreases |data| - bw, if res == FR_OK then 1 else 0, if full then 0 else 1
      {
        var n;
        ghost var st1, s1, a1 := Stored(fs.g, S()), S(), fs.Now();
        res, n := WriteChunk(data[bw..]);
        StaysTrans(fs.g, old(S()), old(fs.Now()), s1, a1, S(), fs.Now(), res == FR_OK);
        if res == FR_OK {
          OKIs();
          if old(Matched(fs.g, S(), fsize)) {
            KnownIs(s1.fptr, fptr, fsize);
            WroteTwice(st0, st1, Stored(fs.g, S()), old(fptr), data[..bw], data[bw..][..n], fsize);
          }
          assert data[..bw] + data[bw..][..n] == data[..bw + n];
          bw := bw + n;
          full := n == 0;
        }
      }
    }

    // ---------- Seeking ----------

    /** Start of a seek to `target`: the current cluster if it is not behind, else the first one,
        allocated if there is none. */
    method SeekStart(target: nat) returns (res: FResult, full: bool)
      requires OK() && target > 0 && (canWrite || target <= fsize)
      modifies `clust, `sclust, `chain, `fptr
      modifies fs`winsect, fs`wflag, fs`media, fs`durable, fs`faults, fs`log, fs`fat, fs`cuts, fs.win
      modifies fs`lastClust, fs`freeClust, fs`fsiFlag
      ensures Ready() && fs.faults >= old(fs.faults)
      ensures old(CutsOK()) ==> CutsOK()
      ensures res == FR_OK && old(CountOK()) ==> CountOK()
      ensures res == FR_OK || (res == FR_DISK_ERR && fs.faults > old(fs.faults))
      ensures res == FR_OK ==> fptr <= target && fptr % 512 == 0 && fptr / 512 % fs.g.csize == 0
      ensures res == FR_OK && full ==> OK() && NoneFree(fs.fat) && Grown(old(Stored(fs.g, S())), Stored(fs.g, S()))
      ensures res == FR_OK && !full ==>
                fptr < target && AtSector(fs.g, S(), fptr / 512) && Grown(old(Stored(fs.g, S())), Stored(fs.g, S()))
      ensures Stays(fs.g, old(S()), old(fs.Now()), S(), fs.Now(), res == FR_OK)
      ensures res == FR_OK ==> MediaStep(fs.g, old(S()), S())
      ensures res == FR_OK && full ==> AtLimit(fs.g, S())
      ensures old(sclust) != 0 || full ==> sclust == old(sclust)
    {
      hide *;
      SIs();
      OKIs();
      ghost var s0 := S();
      CoreIs(fs.g, s0);
      GrownSame(Stored(fs.g, s0));
      res, full := FR_OK, false;
      var here, start := SameOrLater(fs.g, fptr, target);
      if here {
        SeekHere(fs.g, s0, s0.(fptr := start), target);
        fptr := start;
        SIs();
        StaysSame(fs.g, s0, S(), fs.Now(), true);
        MediaSame(fs.g, s0, S());
      } else {
        res, full := SeekTop();
      }
    }

    /** To the first cluster of the file. */
    method SeekTop() returns (res: FResult, full: bool)
      requires OK()
      modifies `clust, `sclust, `chain, `fptr
      modifies fs`winsect, fs`wflag, fs`media, fs`durable, fs`faults, fs`log, fs`fat, fs`cuts, fs.win
      modifies fs`lastClust, fs`freeClust, fs`fsiFlag
      ensures Ready() && fs.faults >= old(fs.faults)
      ensures old(CutsOK()) ==> CutsOK()
      ensures res == FR_OK && old(CountOK()) ==> CountOK()
      ensures res == FR_OK || (res == FR_DISK_ERR && fs.faults > old(fs.faults))
      ensures fptr == 0 && 0 % fs.g.csize == 0
      ensures res == FR_OK && full ==> OK() && NoneFree(fs.fat)
      ensures res == FR_OK && !full ==> AtSector(fs.g, S(), 0)
      ensures res == FR_OK ==> Core(fs.g, S()) && Grown(old(Stored(fs.g, S())), Stored(fs.g, S()))
      ensures Stays(fs.g, old(S()), old(fs.Now()), S(), fs.Now(), res == FR_OK)
      ensures res == FR_OK ==> MediaStep(fs.g, old(S()), S())
      ensures res == FR_OK && full ==> AtLimit(fs.g, S())
      ensures old(sclust) != 0 || full ==> sclust == old(sclust)
    {
      hide *;
      SIs();
      OKIs();
      fs.Facts();
      ghost var s0, a := S(), fs.Now();
      CoreIs(fs.g, s0);
      GrownSame(Stored(fs.g, s0));
      Rewind(fs.g, s0, s0.(fptr := 0));
      res, full := FR_OK, false;
      fptr := 0;
      SIs();
      ghost var sTop := S();
      StaysSame(fs.g, s0, S(), a, true);
      OKIntro();
      var clst := sclust;
      if clst == 0 {
        clst := FollowOrGrow(0, 0);
        StaysTrans(fs.g, s0, a, sTop, a, S(), fs.Now(), clst != ALL_ONES);
        SIs();
        if clst != ALL_ONES { MediaAs(fs.g, sTop, S(), s0, S()); }
        ReadyIs();
      } else {
        FirstSector(fs.g, S());
        MediaSame(fs.g, s0, S());
      }
      AllOnesPositive();
      if clst == 0 {
        full := true;
        OKIs();
      } else if clst == ALL_ONES {
        res := FR_DISK_ERR;
      } else {
        ghost var s1 := S();
        clust := clst;
        SIs();
        StaysAlso(fs.g, s0, a, s1, S(), fs.Now(), true);
        MediaAs(fs.g, s0, s1, s0, S());
        SetCluster(fs.g, s1, S(), 0);
        AtSectorIs(fs.g, S(), 0);
      }
    }

    /** Follow the chain from the current cluster until `ofs` is inside; in write mode the chain
        is stretched, and a full drive stops the seek at the end of the last cluster. */
    method SeekFollow(target: nat) returns (res: FResult, full: bool)
      requires Ready() && fptr % 512 == 0 && fptr / 512 % fs.g.csize == 0 && AtSector(fs.g, S(), fptr / 512)
      requires fptr < target && (canWrite || target <= fsize)
      modifies `clust, `sclust, `chain, `fptr
      modifies fs`winsect, fs`wflag, fs`media, fs`durable, fs`faults, fs`log, fs`fat, fs`cuts, fs.win
      modifies fs`lastClust, fs`freeClust, fs`fsiFlag
      ensures Ready() && fs.faults >= old(fs.faults)
      ensures old(CutsOK()) ==> CutsOK()
      ensures res == FR_OK && old(CountOK()) ==> CountOK()
      ensures res == FR_OK || (res == FR_DISK_ERR && fs.faults > old(fs.faults))
      ensures res == FR_OK ==> fptr <= target && fptr % 512 == 0 && fptr / 512 % fs.g.csize == 0 && Core(fs.g, S())
      ensures res == FR_OK && full ==> OK() && NoneFree(fs.fat)
      ensures res == FR_OK && !full ==> fptr < target <= fptr + 512 * fs.g.csize && AtSector(fs.g, S(), fptr / 512)
      ensures res == FR_OK ==> Grown(old(Stored(fs.g, S())), Stored(fs.g, S()))
      ensures Stays(fs.g, old(S()), old(fs.Now()), S(), fs.Now(), res == FR_OK)
      ensures res == FR_OK ==> MediaStep(fs.g, old(S()), S())
      ensures res == FR_OK && full ==> AtLimit(fs.g, S())
      ensures sclust == old(sclust) && (full ==> fptr > 0)
    {
      hide *;
      AtSectorIs(fs.g, S(), fptr / 512);
      ReadyIs();
      fs.Facts();
      StaysSame(fs.g, S(), S(), fs.Now(), true);
      CoreIs(fs.g, S());
      HasStart(fs.g, S(), fptr / 512);
      SIs();
      MediaSame(fs.g, S(), S());
      ghost var st0 := Stored(fs.g, S());
      GrownSame(st0);
      res, full := FR_OK, false;
      while target - fptr > 512 * fs.g.csize && res == FR_OK && !full
        invariant Ready() && fs.faults >= old(fs.faults) && fs.g.csize >= 1
        invariant old(CutsOK()) ==> CutsOK()
        invariant res == FR_OK && old(CountOK()) ==> CountOK()
        invariant res == FR_OK || (res == FR_DISK_ERR && fs.faults > old(fs.faults))
        invariant res == FR_OK ==> fptr <= target && fptr % 512 == 0 && fptr / 512 % fs.g.csize == 0 && Core(fs.g, S())
        invariant res == FR_OK && full ==> OK() && NoneFree(fs.fat)
        invariant res == FR_OK && !full ==> fptr < target && AtSector(fs.g, S(), fptr / 512)
        invariant res == FR_OK ==> Grown(st0, Stored(fs.g, S()))
        invariant res == FR_OK ==> MediaStep(fs.g, old(S()), S())
        invariant res == FR_OK && full ==> AtLimit(fs.g, S())
        invariant sclust == old(sclust) && sclust != 0 && (full ==> fptr > 0)
        invariant Stays(fs.g, old(S()), old(fs.Now()), S(), fs.Now(), res == FR_OK)
        decreases target - fptr, if res == FR_OK && !full then 1 else 0
      {
        ghost var st1, s1, a1 := Stored(fs.g, S()), S(), fs.Now();
        res, full := SeekStep(target);
        StaysTrans(fs.g, old(S()), old(fs.Now()), s1, a1, S(), fs.Now(), res == FR_OK);
        if res == FR_OK {
          GrownTrans(st0, st1, Stored(fs.g, S()));
          MediaTrans(fs.g, old(S()), s1, S());
        }
      }
    }

    /** On into the next cluster, or a new one. */
    method StepGrow() returns (res: FResult, full: bool)
      requires Ready() && fptr % 512 == 0 && fptr / 512 % fs.g.csize == 0 && fptr > 0 && sclust != 0 && OK()
      requires Core(fs.g, S())
      modifies `clust, `sclust, `chain
      modifies fs`winsect, fs`wflag, fs`media, fs`durable, fs`faults, fs`log, fs`fat, fs`cuts, fs.win
      modifies fs`lastClust, fs`freeClust, fs`fsiFlag
      ensures Ready() && fs.faults >= old(fs.faults)
      ensures old(CutsOK()) ==> CutsOK()
      ensures res == FR_OK && old(CountOK()) ==> CountOK()
      ensures res == FR_OK || (res == FR_DISK_ERR && fs.faults > old(fs.faults))
      ensures res == FR_OK && full ==> OK() && NoneFree(fs.fat) && AtLimit(fs.g, S())
      ensures res == FR_OK && !full ==> AtSector(fs.g, S(), fptr / 512)
      ensures res == FR_OK ==> Core(fs.g, S()) && Grown(old(Stored(fs.g, S())), Stored(fs.g, S()))
      ensures Stays(fs.g, old(S()), old(fs.Now()), S(), fs.Now(), res == FR_OK)
      ensures res == FR_OK ==> MediaStep(fs.g, old(S()), S())
      ensures sclust == old(sclust)
    {
      hide *;
      SIs();
      ReadyIs();
      fs.Facts();
      ghost var s0, q, a := S(), fptr / 512, fs.Now();
      GrownSame(Stored(fs.g, s0));
      res, full := FR_OK, false;
      var clst := FollowOrGrow(clust, q);
      AllOnesPositive();
      SIs();
      if clst == 0 {
        full := true;
        OKIs();
      } else if clst == ALL_ONES {
        res := FR_DISK_ERR;
      } else {
        ghost var s1 := S();
        clust := clst;
        SIs();
        StaysAlso(fs.g, s0, a, s1, S(), fs.Now(), true);
        MediaAs(fs.g, s0, s1, s0, S());
        SetCluster(fs.g, s1, S(), q);
        AtSectorIs(fs.g, S(), q);
      }
    }

    method SeekStep(target: nat) returns (res: FResult, full: bool)
      requires Ready() && fptr % 512 == 0 && fptr / 512 % fs.g.csize == 0 && AtSector(fs.g, S(), fptr / 512)
      requires fptr + 512 * fs.g.csize < target && (canWrite || target <= fsize)
      modifies `clust, `sclust, `chain, `fptr
      modifies fs`winsect, fs`wflag, fs`media, fs`durable, fs`faults, fs`log, fs`fat, fs`cuts, fs.win
      modifies fs`lastClust, fs`freeClust, fs`fsiFlag
      ensures Ready() && fs.faults >= old(fs.faults)
      ensures old(CutsOK()) ==> CutsOK()
      ensures res == FR_OK && old(CountOK()) ==> CountOK()
      ensures res == FR_OK || (res == FR_DISK_ERR && fs.faults > old(fs.faults))
      ensures fptr == old(fptr) + 512 * fs.g.csize
      ensures res == FR_OK ==> fptr % 512 == 0 && fptr / 512 % fs.g.csize == 0 && Core(fs.g, S())
      ensures res == FR_OK && full ==> OK() && NoneFree(fs.fat)
      ensures res == FR_OK && !full ==> AtSector(fs.g, S(), fptr / 512)
      ensures res == FR_OK ==> Grown(old(Stored(fs.g, S())), Stored(fs.g, S()))
      ensures Stays(fs.g, old(S()), old(fs.Now()), S(), fs.Now(), res == FR_OK)
      ensures res == FR_OK ==> MediaStep(fs.g, old(S()), S())
      ensures res == FR_OK && full ==> AtLimit(fs.g, S())
      ensures sclust == old(sclust) && (full ==> fptr > 0)
    {
      hide *;
      SIs();
      ReadyIs();
      fs.Facts();
      ghost var s0, q, a := S(), fptr / 512, fs.Now();
      AtSectorIs(fs.g, s0, q);
      ClusterEnd(fs.g, s0, q);
      HasStart(fs.g, s0, q);
      SkipCluster(fs.g, s0, s0.(fptr := fptr + 512 * fs.g.csize), q);
      GrownSame(Stored(fs.g, s0));
      res, full := FR_OK, false;
      fptr := fptr + 512 * fs.g.csize;
      SIs();
      ghost var sNext := S();
      StaysSame(fs.g, s0, sNext, a, true);
      OKIntro();
      assert fptr / 512 == q + fs.g.csize;
      if canWrite {
        OKIs();
        res, full := StepGrow();
        SIs();
        StaysTrans(fs.g, s0, a, sNext, a, S(), fs.Now(), res == FR_OK);
        if res == FR_OK { MediaAs(fs.g, sNext, S(), s0, S()); }
      } else {
        var sect;
        res, sect := LocateForRead();
        StaysTrans(fs.g, s0, a, sNext, a, S(), fs.Now(), res == FR_OK);
        if res == FR_OK {
          AtSectorIs(fs.g, S(), fptr / 512);
          SIs();
          MediaAs(fs.g, sNext, S(), s0, S());
        }
      }
    }

    /** The last leg: to `target`, inside the current cluster, with its sector in the buffer. */
    method SeekLand(target: nat) returns (res: FResult)
      requires Ready() && fptr % 512 == 0 && fptr / 512 % fs.g.csize == 0 && AtSector(fs.g, S(), fptr / 512)
      requires fptr < target <= fptr + 512 * fs.g.csize
      modifies `dirty, `dsect, `fptr, buf, fs`media, fs`faults, fs`direct
      ensures Ready() && fs.faults >= old(fs.faults)
      ensures res == FR_OK || (res == FR_DISK_ERR && fs.faults > old(fs.faults))
      ensures res == FR_OK ==> OK() && fptr == target && Stored(fs.g, S()) == old(Stored(fs.g, S()))
      ensures Stays(fs.g, old(S()), old(fs.Now()), S(), fs.Now(), res == FR_OK)
      ensures res == FR_OK ==>
                && Reloaded(fs.g, old(S()), S()) && DiskKept(fs.g, old(S()), S())
                && (fptr % 512 == 0 ==> dsect == old(dsect))
      ensures dirty ==> old(dirty)
    {
      hide *;
      SIs();
      ReadyIs();
      fs.Facts();
      ghost var s0, q, a := S(), fptr / 512, fs.Now();
      var ofs := target - fptr;
      AtSectorIs(fs.g, s0, q);
      Land(fs.g, s0, s0.(fptr := target), q, ofs);
      res := FR_OK;
      fptr := target;
      SIs();
      ghost var sNext := S();
      StaysSame(fs.g, s0, sNext, a, true);
      DiskSame(fs.g, s0, sNext);
      ReloadedSame(fs.g, s0, sNext);
      if ofs % 512 != 0 {
        var nsect := Clust2Sect(fs.g, clust) + ofs / 512;
        ghost var s1 := S();
        res := LoadSector(nsect, q + ofs / 512);
        StaysTrans(fs.g, s0, a, sNext, a, S(), fs.Now(), res == FR_OK);
        SIs();
        if res == FR_OK {
          Landed(fs.g, s0, s1, S(), q, ofs);
          LandedBuffer(fs.g, s0, s1, S());
        }
      }
      if res == FR_OK { OKIntro(); }
    }

    /** The seek itself; if it goes past the end, the file grows. */
    method SeekOn(target: nat) returns (res: FResult)
      requires OK() && fptr <= fsize <= ALL_ONES && target <= ALL_ONES && (canWrite || target <= fsize)
      modifies `clust, `sclust, `chain, `dirty, `dsect, `fptr, `fsize, `written, buf
      modifies fs`winsect, fs`wflag, fs`media, fs`durable, fs`faults, fs`direct, fs`log, fs`fat, fs`cuts, fs.win
      modifies fs`lastClust, fs`freeClust, fs`fsiFlag
      ensures (old(written) ==> written) && (dirty ==> old(dirty))
      ensures res == FR_OK && !written ==> sclust == old(sclust) && fsize == old(fsize)
      ensures Ready() && fs.faults >= old(fs.faults)
      ensures old(CutsOK()) ==> CutsOK()
      ensures res == FR_OK && old(CountOK()) ==> CountOK()
      ensures res == FR_OK || (res == FR_DISK_ERR && fs.faults > old(fs.faults))
      ensures res == FR_OK ==>
                && OK() && fptr <= target && (fptr == target || (NoneFree(fs.fat) && AtLimit(fs.g, S())))
                && fsize == (if fptr > old(fsize) then fptr else old(fsize)) <= ALL_ONES
                && File(fs.g, S())[..old(fsize)] == old(File(fs.g, S()))
      ensures Stays(fs.g, old(S()), old(fs.Now()), S(), fs.Now(), res == FR_OK)
      ensures res == FR_OK && old(Matched(fs.g, S(), fsize)) ==>
                (Matched(fs.g, S(), fsize) <==> !GapDiffers(fs.g, S(), old(fsize)))
      ensures res == FR_OK ==>
                && Reloaded(fs.g, old(S()), S()) && DiskKept(fs.g, old(S()), S())
                && (fptr % 512 == 0 ==> dsect == old(dsect))
    {
      hide *;
      SIs();
      OKIs();
      fs.Facts();
      ghost var s0, a := S(), fs.Now();
      if sclust == 0 { NoStart(fs.g, s0); }
      FileOf(fs.g, s0);
      ghost var st0 := Stored(fs.g, s0);
      res := SeekTo(target);
      if res == FR_OK {
        OKIs();
        ghost var st1 := Stored(fs.g, S());
        CoreIs(fs.g, S());
        SIs();
        FileOf(fs.g, S());
        GrownFile(st0, st1, fsize, if fptr > fsize then fptr else fsize);
        if fptr > fsize {
          ghost var s1, a1 := S(), fs.Now();
          CommitSize();
          StaysTrans(fs.g, s0, a, s1, a1, S(), fs.Now(), true);
          SIs();
          ReloadedAlso(fs.g, s0, s1, S());
          AtLimitKept(fs.g, s1, S());
        }
        GapAfter(fs.g, s0, a, S(), fs.Now());
      }
    }

    /** Move the position to `ofs`, clipped at the end of the file unless the file is open for
        writing; then the file grows, its old bytes unchanged, as far as the drive has room. */
    method FLseek(ofs: nat) returns (res: FResult)
      requires OK() && fptr <= fsize <= ALL_ONES && ofs <= ALL_ONES
      modifies `clust, `sclust, `chain, `dirty, `dsect, `fptr, `fsize, `written, `err, buf
      modifies fs`winsect, fs`wflag, fs`media, fs`durable, fs`faults, fs`direct, fs`log, fs`fat, fs`cuts, fs.win
      modifies fs`lastClust, fs`freeClust, fs`fsiFlag
      ensures (old(written) ==> written) && (dirty ==> old(dirty))
      ensures res == FR_OK && !written ==> sclust == old(sclust) && fsize == old(fsize)
      ensures Ready() && fs.faults >= old(fs.faults)
      ensures old(CutsOK()) ==> CutsOK()
      ensures (res == FR_OK || res == FR_DENIED) && old(CountOK()) ==> CountOK()
      ensures old(err) != FR_OK ==> res == old(err) && S() == old(S())
      ensures old(err) == FR_OK ==> res == FR_OK || (res == FR_DISK_ERR == err && fs.faults > old(fs.faults))
      ensures res == FR_OK ==>
                var target := if ofs > old(fsize) && !canWrite then old(fsize) else ofs;
                && OK() && fptr <= target && (fptr == target || (NoneFree(fs.fat) && AtLimit(fs.g, S())))
                && fsize == (if fptr > old(fsize) then fptr else old(fsize)) <= ALL_ONES
                && File(fs.g, S())[..old(fsize)] == old(File(fs.g, S()))
      ensures Stays(fs.g, old(S()), old(fs.Now()), S(), fs.Now(), res == FR_OK || res == FR_DENIED)
      ensures res == FR_OK || res == FR_DENIED ==> err == old(err)
      ensures res == FR_OK && old(Matched(fs.g, S(), fsize)) ==>
                (Matched(fs.g, S(), fsize) <==> !GapDiffers(fs.g, S(), old(fsize)))
      ensures res == FR_OK ==>
                && Reloaded(fs.g, old(S()), S()) && DiskKept(fs.g, old(S()), S())
                && (fptr % 512 == 0 ==> dsect == old(dsect))
    {
      hide *;
      SIs();
      OKIs();
      fs.Facts();
      StaysSame(fs.g, S(), S(), fs.Now(), true);
      StaysSame(fs.g, S(), S(), fs.Now(), false);
      if err != FR_OK { return err; }
      var target := if ofs > fsize && !canWrite then fsize else ofs;
      res := SeekOn(target);
      if res != FR_OK { err := res; }
    }

    /** From the current cluster if `target` is not before it, else from the first one, to the
        cluster of `target`. */
    method SeekWalk(target: nat) returns (res: FResult, full: bool)
      requires OK() && target > 0 && (canWrite || target <= fsize)
      modifies `clust, `sclust, `chain, `fptr
      modifies fs`winsect, fs`wflag, fs`media, fs`durable, fs`faults, fs`log, fs`fat, fs`cuts, fs.win
      modifies fs`lastClust, fs`freeClust, fs`fsiFlag
      ensures Ready() && fs.faults >= old(fs.faults)
      ensures old(CutsOK()) ==> CutsOK()
      ensures res == FR_OK && old(CountOK()) ==> CountOK()
      ensures res == FR_OK || (res == FR_DISK_ERR && fs.faults > old(fs.faults))
      ensures res == FR_OK ==> fptr <= target && fptr % 512 == 0 && fptr / 512 % fs.g.csize == 0 && Core(fs.g, S())
      ensures res == FR_OK && full ==> OK() && NoneFree(fs.fat) && AtLimit(fs.g, S())
      ensures res == FR_OK && !full ==> fptr < target <= fptr + 512 * fs.g.csize && AtSector(fs.g, S(), fptr / 512)
      ensures res == FR_OK ==> Grown(old(Stored(fs.g, S())), Stored(fs.g, S())) && MediaStep(fs.g, old(S()), S())
      ensures Stays(fs.g, old(S()), old(fs.Now()), S(), fs.Now(), res == FR_OK)
      ensures sclust != old(sclust) ==> old(sclust) == 0 && (full ==> fptr > 0)
    {
      hide *;
      SIs();
      OKIs();
      fs.Facts();
      ghost var st0, s0, a := Stored(fs.g, S()), S(), fs.Now();
      CoreIs(fs.g, s0);
      res, full := SeekStart(target);
      if res == FR_OK {
        if full {
          OKIs();
        } else {
          AtSectorIs(fs.g, S(), fptr / 512);
          ghost var st1, s1, a1 := Stored(fs.g, S()), S(), fs.Now();
          res, full := SeekFollow(target);
          StaysTrans(fs.g, s0, a, s1, a1, S(), fs.Now(), res == FR_OK);
          if res == FR_OK {
            GrownTrans(st0, st1, Stored(fs.g, S()));
            MediaTrans(fs.g, s0, s1, S());
          }
        }
      }
    }

    method SeekTo(target: nat) returns (res: FResult)
      requires OK() && (canWrite || target <= fsize)
      modifies `clust, `sclust, `chain, `dirty, `dsect, `fptr, buf
      modifies fs`winsect, fs`wflag, fs`media, fs`durable, fs`faults, fs`direct, fs`log, fs`fat, fs`cuts, fs.win
      modifies fs`lastClust, fs`freeClust, fs`fsiFlag
      ensures Ready() && fs.faults >= old(fs.faults)
      ensures old(CutsOK()) ==> CutsOK()
      ensures res == FR_OK && old(CountOK()) ==> CountOK()
      ensures res == FR_OK || (res == FR_DISK_ERR && fs.faults > old(fs.faults))
      ensures res == FR_OK ==> OK() && fptr <= target && (fptr == target || (NoneFree(fs.fat) && AtLimit(fs.g, S())))
      ensures res == FR_OK ==> Grown(old(Stored(fs.g, S())), Stored(fs.g, S()))
      ensures Stays(fs.g, old(S()), old(fs.Now()), S(), fs.Now(), res == FR_OK)
      ensures res == FR_OK ==>
                && Reloaded(fs.g, old(S()), S()) && DiskKept(fs.g, old(S()), S())
                && (fptr % 512 == 0 ==> dsect == old(dsect))
      ensures dirty ==> old(dirty)
      ensures sclust != old(sclust) && res == FR_OK ==> old(sclust) == 0 && fptr > 0
    {
      hide *;
      SIs();
      OKIs();
      fs.Facts();
      ghost var st0, s0, a := Stored(fs.g, S()), S(), fs.Now();
      CoreIs(fs.g, s0);
      if target == 0 {
        Rewind(fs.g, S(), S().(fptr := 0));
        GrownSame(st0);
        fptr := 0;
        SIs();
        StaysSame(fs.g, s0, S(), a, true);
        DiskSame(fs.g, s0, S());
        ReloadedSame(fs.g, s0, S());
        OKIntro();
        res := FR_OK;
      } else {
        var full;
        res, full := SeekWalk(target);
        SIs();
        ReadyIs();
        ghost var s1, a1 := S(), fs.Now();
        if res == FR_OK {
          if full {
            DiskOfMedia(fs.g, s0, s1);
            ReloadedSame(fs.g, s0, s1);
          } else {
            res := SeekLand(target);
            StaysTrans(fs.g, s0, a, s1, a1, S(), fs.Now(), res == FR_OK);
            if res == FR_OK { ReloadedAfter(fs.g, s0, s1, S()); }
          }
        }
      }
    }

    // ---------- Truncating ----------

    /** Cut the file at position 0: the whole chain is released. */
    method ReleaseAll() returns (res: FResult)
      requires OK() && fptr == 0 < fsize
      modifies `fsize, `sclust, `chain, fs`winsect, fs`wflag, fs`media, fs`durable, fs`faults, fs`log, fs`fat, fs`cuts
      modifies fs.win
      modifies fs`freeClust, fs`fsiFlag
      ensures Ready() && fs.faults >= old(fs.faults)
      ensures old(CutsOK()) ==> CutsOK()
      ensures res == FR_OK || (res == FR_DISK_ERR && fs.faults > old(fs.faults))
      ensures res == FR_OK && old(CountOK()) ==> CountOK()
      ensures res == FR_OK ==> OK() && fsize == fptr
      ensures res == FR_OK ==> File(fs.g, S()) == old(File(fs.g, S()))[..fptr]
      ensures res == FR_OK ==> TailFreed(old(S()), fs.fat, ClustersBefore(fs.g, fptr))
      ensures res == FR_OK ==> chain == old(chain)[..ClustersBefore(fs.g, fptr)]
      ensures Trims(fs.g, old(S()), old(fs.Now()), S(), fs.Now(), res == FR_OK)
      ensures res == FR_OK ==> MediaStep(fs.g, old(S()), S())
    {
      hide *;
      SIs();
      OKIs();
      fs.Facts();
      fs.CountsFit();
      fs.g.KeptLinks();
      HeapFacts();
      ghost var s0, a, mark := S(), fs.Now(), fs.g.Kept(LAST_LINK);
      BeforeNothing(fs.g);
      CutPoint(fs.g, s0, 0);
      ChainOf(fs.g, s0);
      EndedNowhere(s0, mark);
      fsize := fptr;
      res := RemoveChain(fs, sclust);
      sclust := 0;
      chain := [];
      ReadyIntro();
      HeapFacts();
      fs.Facts();
      SIs();
      MediaOfFat(fs.g, a, fs.Now(), s0, S());
      WalkOnly(fs.g, s0, 0, mark, fs.fat);
      CutCuts(fs.g, s0, fs.fat, mark, 0, old(fs.cuts), old(fs.cuts), fs.cuts);
      if res != FR_DISK_ERR {
        CutStateIs(s0, fs.fat, fs.media, fs.winsect, 0, 0);
        CutTail(fs.g, s0, S(), mark, 0, old(fs.freeClust), fs.freeClust, res);
        OKIntro();
      }
      assert s0.chain[..0] == [];
      TrimIntro(fs.g, s0, S(), 0, a, fs.Now(), res == FR_OK);
    }

    /** Cut the file at a later position: the chain is ended after the current cluster, then the
        clusters behind it are released. */
    method ReleaseAfter() returns (res: FResult)
      requires OK() && 0 < fptr < fsize
      modifies `fsize, `sclust, `chain, fs`winsect, fs`wflag, fs`media, fs`durable, fs`faults, fs`log, fs`fat, fs`cuts
      modifies fs.win
      modifies fs`freeClust, fs`fsiFlag
      ensures Ready() && fs.faults >= old(fs.faults)
      ensures old(CutsOK()) ==> CutsOK()
      ensures res == FR_OK || (res == FR_DISK_ERR && fs.faults > old(fs.faults))
      ensures res == FR_OK && old(CountOK()) ==> CountOK()
      ensures res == FR_OK ==> OK() && fsize == fptr
      ensures res == FR_OK ==> File(fs.g, S()) == old(File(fs.g, S()))[..fptr]
      ensures res == FR_OK ==> TailFreed(old(S()), fs.fat, ClustersBefore(fs.g, fptr))
      ensures res == FR_OK ==> chain == old(chain)[..ClustersBefore(fs.g, fptr)]
      ensures Trims(fs.g, old(S()), old(fs.Now()), S(), fs.Now(), res == FR_OK)
      ensures res == FR_OK ==> MediaStep(fs.g, old(S()), S())
    {
      hide *;
      SIs();
      OKIs();
      fs.Facts();
      fs.CountsFit();
      fs.g.KeptLinks();
      HeapFacts();
      ghost var s0, a, mark, k := S(), fs.Now(), fs.g.Kept(LAST_LINK), ClustersBefore(fs.g, fptr);
      CutPoint(fs.g, s0, k);
      ChainOf(fs.g, s0);
      fsize := fptr;
      res := EndHere(s0, k);
      ReadyIntro();
      HeapFacts();
      fs.Facts();
      SIs();
      if res != FR_DISK_ERR {
        chain := chain[..k];
        SIs();
        MediaOfFat(fs.g, a, fs.Now(), s0, S());
        CutStateIs(s0, fs.fat, fs.media, fs.winsect, k, sclust);
        if k == |s0.chain| {
          CutNothing(fs.g, s0, S(), mark, k);
        } else {
          CutTail(fs.g, s0, S(), mark, k, old(fs.freeClust), fs.freeClust, res);
        }
        OKIntro();
      }
      TrimIntro(fs.g, s0, S(), k, a, fs.Now(), res == FR_OK);
    }

    /** End the chain after the current cluster, which is number `k` - 1, and release the rest. */
    method EndHere(ghost s0: FState, ghost k: nat) returns (res: FResult)
      requires fs.Valid() && FileOK(fs.g, s0) && fs.g.csize >= 1 && fs.fat == s0.fat
      requires 0 < s0.fptr < s0.fsize && k == ClustersBefore(fs.g, s0.fptr) <= |s0.chain| && clust == s0.clust
      modifies fs`winsect, fs`wflag, fs`media, fs`durable, fs`faults, fs`log, fs`fat, fs`cuts, fs.win
      modifies fs`freeClust, fs`fsiFlag
      ensures fs.Valid() && FatStep(fs.g, old(fs.Now()), fs.Now()) && fs.faults >= old(fs.faults)
      ensures CutsHold(fs.g.fsType, old(fs.cuts)) ==> CutsHold(fs.g.fsType, fs.cuts)
      ensures res == FR_DISK_ERR ==> fs.faults > old(fs.faults)
      ensures res != FR_DISK_ERR && k == |s0.chain| ==>
                res == FR_OK && fs.fat == s0.fat && fs.freeClust == old(fs.freeClust)
      ensures res != FR_DISK_ERR && k < |s0.chain| ==>
                && (forall i :: 0 <= i < |s0.chain| ==> s0.chain[i] < |s0.fat|)
                && Removed(Ended(s0.fat, s0.chain, k, fs.g.Kept(LAST_LINK)), fs.fat, s0.chain[k], old(fs.freeClust),
                           fs.freeClust, res)
      ensures OnlyChain(s0.fat, fs.fat, s0.chain)
    {
      hide *;
      FileOKIs(fs.g, s0);
      fs.Facts();
      fs.g.KeptLinks();
      LastLinkSmall();
      CutsHoldWide(fs.g.fsType, fs.cuts);
      ghost var mark := fs.g.Kept(LAST_LINK);
      CutPoint(fs.g, s0, k);
      ChainOf(fs.g, s0);
      EndedAfter(s0, k, mark);
      OnlyChainSame(s0.fat, s0.chain);
      var ncl := fs.GetFat(clust);
      res := FR_OK;
      if ncl == ALL_ONES { res := FR_DISK_ERR; }
      if ncl == 1 { res := FR_INT_ERR; }
      if res == FR_OK && ncl < fs.g.nFatent {
        ghost var a1 := fs.Now();
        fs.Facts();
        res := fs.PutFat(clust, LAST_LINK);
        FatStepTrans(fs.g, old(fs.Now()), a1, fs.Now());
        OnlyAtIntro(s0.fat, s0.fat[clust := fs.g.Kept(LAST_LINK)], clust);
        ClustInChain(fs.g, s0);
        OnlyChainAt(s0.fat, fs.fat, s0.chain, clust);
        if res == FR_OK { res := ReleaseRest(s0, k, ncl, old(fs.Now()), old(fs.cuts)); }
      }
    }

    /** The release after the chain was ended. */
    method ReleaseRest(ghost s0: FState, ghost k: nat, ncl: nat, ghost a: Snapshot, ghost cuts0: seq<seq<nat>>)
      returns (res: FResult)
      requires fs.Valid() && FileOK(fs.g, s0) && fs.g.csize >= 1 && 0 < k < |s0.chain|
      requires s0.sclust != 0 && ncl == s0.chain[k] && (forall i :: 0 <= i < |s0.chain| ==> s0.chain[i] < |s0.fat|)
      requires fs.g.Kept(LAST_LINK) >= |s0.fat| && fs.fat == Ended(s0.fat, s0.chain, k, fs.g.Kept(LAST_LINK))
      requires fs.g.fsType != FAT12 ==> fs.cuts == cuts0 + [fs.fat]
      requires FatStep(fs.g, a, fs.Now()) && |a.media| == fs.g.nsect
      modifies fs`winsect, fs`wflag, fs`media, fs`durable, fs`faults, fs`log, fs`fat, fs`cuts, fs.win
      modifies fs`freeClust, fs`fsiFlag
      ensures fs.Valid() && FatStep(fs.g, a, fs.Now()) && fs.faults >= old(fs.faults)
      ensures CutsHold(fs.g.fsType, cuts0) ==> CutsHold(fs.g.fsType, fs.cuts)
      ensures res == FR_DISK_ERR ==> fs.faults > old(fs.faults)
      ensures res != FR_DISK_ERR ==> Removed(old(fs.fat), fs.fat, ncl, old(fs.freeClust), fs.freeClust, res)
      ensures OnlyChain(s0.fat, fs.fat, s0.chain)
    {
      hide *;
      FileOKIs(fs.g, s0);
      fs.Facts();
      ghost var a1 := fs.Now();
      res := RemoveChain(fs, ncl);
      FatStepTrans(fs.g, a, a1, fs.Now());
      WalkOnly(fs.g, s0, k, fs.g.Kept(LAST_LINK), fs.fat);
      Cutting(s0, k, res, cuts0, old(fs.cuts));
    }

    lemma Cutting(s0: FState, k: nat, res: FResult, cuts0: seq<seq<nat>>, cuts1: seq<seq<nat>>)
      requires Core(fs.g, s0) && s0.sclust != 0 && 0 < k < |s0.chain| && fs.g.Kept(LAST_LINK) >= |s0.fat|
      requires forall i :: 0 <= i < |s0.chain| ==> s0.chain[i] < |s0.fat|
      requires fs.g.fsType != FAT12 ==> cuts1 == cuts0 + [Ended(s0.fat, s0.chain, k, fs.g.Kept(LAST_LINK))]
      requires res != FR_DISK_ERR || fs.g.fsType != FAT12 ==>
                 Releasing(fs.g.fsType, Ended(s0.fat, s0.chain, k, fs.g.Kept(LAST_LINK)), s0.chain[k], cuts1, fs.fat, 0,
                           fs.cuts)
      ensures CutsHold(fs.g.fsType, cuts0) ==> CutsHold(fs.g.fsType, fs.cuts)
    {
      hide Core, Ended, Releasing, CutsHold, Geometry.Kept;
      CutCuts(fs.g, s0, fs.fat, fs.g.Kept(LAST_LINK), k, cuts0, cuts1, fs.cuts);
    }

    /** All clusters behind the position, or all of them. */
    method Release() returns (res: FResult)
      requires OK() && fptr < fsize
      modifies `fsize, `sclust, `chain, fs`winsect, fs`wflag, fs`media, fs`durable, fs`faults, fs`log, fs`fat, fs`cuts
      modifies fs.win
      modifies fs`freeClust, fs`fsiFlag
      ensures Ready() && fs.faults >= old(fs.faults)
      ensures old(CutsOK()) ==> CutsOK()
      ensures res == FR_OK || (res == FR_DISK_ERR && fs.faults > old(fs.faults))
      ensures res == FR_OK && old(CountOK()) ==> CountOK()
      ensures res == FR_OK ==> OK() && fsize == fptr && File(fs.g, S()) == old(File(fs.g, S()))[..fptr]
      ensures res == FR_OK ==> TailFreed(old(S()), fs.fat, ClustersBefore(fs.g, fptr))
      ensures res == FR_OK ==> chain == old(chain)[..ClustersBefore(fs.g, fptr)]
      ensures Trims(fs.g, old(S()), old(fs.Now()), S(), fs.Now(), res == FR_OK)
      ensures res == FR_OK ==> MediaStep(fs.g, old(S()), S())
    {
      hide *;
      OKIs();
      SIs();
      CoreIs(fs.g, S());
      ChainRange(fs.g, S());
      CutPoint(fs.g, S(), ClustersBefore(fs.g, fptr));
      if fptr == 0 { res := ReleaseAll(); } else { res := ReleaseAfter(); }
    }

    /** Release the clusters behind the position, then write the dirty buffer back. */
    method CutHere() returns (res: FResult)
      requires OK() && fptr < fsize
      modifies `fsize, `sclust, `chain, `dirty
      modifies fs`winsect, fs`wflag, fs`media, fs`durable, fs`faults, fs`direct, fs`log, fs`fat, fs`cuts, fs.win
      modifies fs`freeClust, fs`fsiFlag
      ensures Ready() && fs.faults >= old(fs.faults)
      ensures old(CutsOK()) ==> CutsOK()
      ensures res == FR_OK || (res == FR_DISK_ERR && fs.faults > old(fs.faults))
      ensures res == FR_OK && old(CountOK()) ==> CountOK()
      ensures res == FR_OK ==> OK() && fsize == fptr && File(fs.g, S()) == old(File(fs.g, S()))[..fptr]
      ensures res == FR_OK ==> TailFreed(old(S()), fs.fat, ClustersBefore(fs.g, fptr))
      ensures res == FR_OK ==> !dirty && chain == old(chain)[..ClustersBefore(fs.g, fptr)]
      ensures StaysCut(fs.g, old(S()), old(fs.Now()), S(), fs.Now(), res == FR_OK)
      ensures res == FR_OK && old(Matched(fs.g, S(), fsize)) ==> Matched(fs.g, S(), fsize)
      ensures res == FR_OK ==> DiskKept(fs.g, old(S()), S())
    {
      hide *;
      SIs();
      OKIs();
      fs.Facts();
      ghost var s0, a := S(), fs.Now();
      CoreIs(fs.g, s0);
      ChainRange(fs.g, s0);
      CutPoint(fs.g, s0, ClustersBefore(fs.g, fptr));
      res := Release();
      SIs();
      TrimStays(fs.g, s0, a, S(), fs.Now(), res == FR_OK && !dirty);
      if res == FR_OK {
        OKIs();
        fs.Facts();
        ghost var s1, a1 := S(), fs.Now();
        CutMatched(fs.g, s0, s1, ClustersBefore(fs.g, fptr));
        if dirty {
          res := FlushAt();
          SIs();
          TrimFlushStays(fs.g, s0, a, s1, a1, S(), fs.Now(), res == FR_OK);
          if res == FR_OK { FlushMatched(fs.g, s0, s1, a1, S(), fs.Now()); }
        }
      }
    }

    /** Cut the file at the position; the clusters behind it are free afterwards. */
    method FTruncate() returns (res: FResult)
      requires OK() && fptr <= fsize
      modifies `fsize, `sclust, `chain, `dirty, `written, `err
      modifies fs`winsect, fs`wflag, fs`media, fs`durable, fs`faults, fs`direct, fs`log, fs`fat, fs`cuts, fs.win
      modifies fs`freeClust, fs`fsiFlag
      ensures (old(written) ==> written) && (res == FR_OK && dirty ==> old(dirty))
      ensures res == FR_OK && !written ==> sclust == old(sclust) && fsize == old(fsize)
      ensures Ready() && fs.faults >= old(fs.faults)
      ensures old(CutsOK()) ==> CutsOK()
      ensures old(err) != FR_OK ==> res == old(err) && S() == old(S())
      ensures old(err) == FR_OK && !canWrite ==> res == FR_DENIED && S() == old(S())
      ensures old(err) == FR_OK && canWrite ==>
                res == FR_OK || (res == FR_DISK_ERR == err && fs.faults > old(fs.faults))
      ensures (res == FR_OK || res == FR_DENIED) && old(CountOK()) ==> CountOK()
      ensures res == FR_OK ==> OK() && fsize == fptr && File(fs.g, S()) == old(File(fs.g, S()))[..fptr]
      ensures res == FR_OK && old(fptr < fsize) ==>
                written && !dirty && chain == old(chain)[..ClustersBefore(fs.g, fptr)]
      ensures res == FR_OK && old(fptr < fsize) ==> TailFreed(old(S()), fs.fat, ClustersBefore(fs.g, fptr))
      ensures StaysCut(fs.g, old(S()), old(fs.Now()), S(), fs.Now(), res == FR_OK || res == FR_DENIED)
      ensures res == FR_OK || res == FR_DENIED ==> err == old(err)
      ensures res == FR_OK && old(Matched(fs.g, S(), fsize)) ==> Matched(fs.g, S(), fsize)
      ensures res == FR_OK ==> DiskKept(fs.g, old(S()), S())
      ensures res == FR_OK && old(fptr >= fsize) ==> S() == old(S())
    {
      hide *;
      SIs();
      OKIs();
      fs.Facts();
      ghost var s0, a := S(), fs.Now();
      StaysSame(fs.g, s0, s0, a, true);
      StaysIsCut(fs.g, s0, a, s0, a, true);
      StaysSame(fs.g, s0, s0, a, false);
      StaysIsCut(fs.g, s0, a, s0, a, false);
      if err != FR_OK { return err; }
      if !canWrite { return FR_DENIED; }
      res := FR_OK;
      if fsize > fptr {
        written := true;
        res := CutHere();
      } else {
        FileOf(fs.g, s0);
        DiskSame(fs.g, s0, s0);
      }
      if res != FR_OK { err := res; }
    }

    /** Write the dirty buffer back between two calls. */
    method FlushAt() returns (res: FResult)
      requires OK() && dirty
      modifies `dirty, fs`media, fs`faults, fs`direct
      ensures Ready()
      ensures res == FR_OK ==> OK() && !dirty && File(fs.g, S()) == old(File(fs.g, S())) && fs.faults == old(fs.faults)
      ensures res != FR_OK ==> res == FR_DISK_ERR && fs.faults > old(fs.faults)
      ensures DataStep(dsect, 1, old(fs.Now()), fs.Now())
      ensures Stays(fs.g, old(S()), old(fs.Now()), S(), fs.Now(), res == FR_OK)
      ensures res == FR_OK ==> DiskKept(fs.g, old(S()), S())
    {
      hide *;
      SIs();
      OKIs();
      ghost var s0 := S();
      FileOf(fs.g, s0);
      PositionedIs(fs.g, s0);
      res := Flush();
      SIs();
      if res == FR_OK {
        DiskFlushed(fs.g, s0, S());
        FileOf(fs.g, S());
        FileOKIntro(fs.g, S());
        OKIntro();
      }
    }

    // ---------- Synchronising ----------

    /** Write the buffer back if it is dirty, before the directory entry is brought up to date. */
    method Settle() returns (res: FResult)
      requires OK() && DirEntryApart(fs.g, S(), dirSect)
      modifies `dirty, fs`media, fs`faults, fs`direct
      ensures Ready() && fs.faults >= old(fs.faults)
      ensures res == FR_OK || (res == FR_DISK_ERR && fs.faults > old(fs.faults))
      ensures res == FR_OK ==>
                OK() && !dirty && File(fs.g, S()) == old(File(fs.g, S())) && DirEntryApart(fs.g, S(), dirSect)
      ensures res == FR_OK && old(Tidy(fs.g, S())) ==> SameAt(old(fs.View()), fs.View(), dirSect)
      ensures StaysBut(fs.g, old(S()), old(fs.Now()), S(), fs.Now(), {dirSect}, res == FR_OK)
    {
      hide *;
      SIs();
      OKIs();
      fs.Facts();
      ghost var s0, a := S(), fs.Now();
      DirEntryApartIs(fs.g, s0, dirSect);
      StaysSame(fs.g, s0, s0, a, true);
      StaysButMore(fs.g, s0, a, s0, a, {dirSect}, true);
      SameAtSelf(a.view, dirSect);
      res := FR_OK;
      if dirty {
        res := FlushAt();
        SIs();
        fs.NowIs();
        StaysButMore(fs.g, s0, a, S(), fs.Now(), {dirSect}, res == FR_OK);
        DirEntryApartKept(fs.g, s0, S(), dirSect);
        if Tidy(fs.g, s0) && res == FR_OK { FlushElsewhere(fs.g, s0, a, fs.Now(), dirSect); }
      }
    }

    /** The file is closed or synchronised: what the drive holds from then on is the file, the
        size and the first cluster in its directory entry, and every store made before. */
    method FSync(tm: nat) returns (res: FResult)
      requires OK() && DirEntryApart(fs.g, S(), dirSect) && dirOff + 32 <= 512 && tm <= 0xFFFF_FFFF
      requires fsize <= 0xFFFF_FFFF
      modifies `dirty, `written, fs`winsect, fs`wflag, fs`media, fs`durable, fs`faults, fs`direct, fs`log, fs`fat
      modifies fs`cuts, fs`fsiFlag, fs.win
      ensures Ready() && fs.faults >= old(fs.faults)
      ensures res == FR_OK || (res == FR_DISK_ERR && fs.faults > old(fs.faults))
      ensures res == FR_OK ==> OK() && !written && File(fs.g, S()) == old(File(fs.g, S())) && fs.fat == old(fs.fat)
      ensures res == FR_OK && old(written) ==> !dirty && !fs.wflag && fs.durable == |fs.log|
      ensures res == FR_OK && old(written) ==> OnMedia(fs.g, fs.media, chain, fsize, old(File(fs.g, S())))
      ensures res == FR_OK && old(written) ==> EntryOnMedia(fs.media, dirSect, dirOff, fsize, sclust, tm)
      ensures old(CutsOK()) ==> CutsOK()
      ensures StaysBut(fs.g, old(S()), old(fs.Now()), S(), fs.Now(), {dirSect}, res == FR_OK)
      ensures res == FR_OK && old(written) && old(Tidy(fs.g, S())) ==>
                EntryUpdated(old(fs.View()), fs.View(), dirSect, dirOff, fsize, sclust, tm)
      ensures !old(written) ==> res == FR_OK && S() == old(S()) && fs.Now() == old(fs.Now())
    {
      hide *;
      SIs();
      OKIs();
      HeapFacts();
      fs.Facts();
      ghost var s0, a := S(), fs.Now();
      StaysSame(fs.g, s0, s0, a, true);
      StaysButMore(fs.g, s0, a, s0, a, {dirSect}, true);
      DirEntryApartIs(fs.g, s0, dirSect);
      FileOf(fs.g, s0);
      res := FR_OK;
      if written {
        ghost var f0 := File(fs.g, s0);
        res := Settle();
        SIs();
        if res == FR_OK {
          ghost var s1, a1 := S(), fs.Now();
          fs.NowIs();
          res := WriteEntry(tm);
          SIs();
          StaysButTrans(fs.g, s0, a, s1, a1, S(), fs.Now(), {dirSect}, res == FR_OK);
          if res == FR_OK {
            OKIs();
            OnDrive(fs.g, S());
            OnMediaIntro(fs.g, S(), f0);
            if Tidy(fs.g, s0) { EntryUpdatedAfter(a.view, a1.view, fs.View(), dirSect, dirOff, fsize, sclust, tm); }
          }
        }
        HeapFacts();
      }
    }

    /** Bring the directory entry up to date and write everything pending. */
    method WriteEntry(tm: nat) returns (res: FResult)
      requires OK() && !dirty && DirEntryApart(fs.g, S(), dirSect) && dirOff + 32 <= 512 && tm <= 0xFFFF_FFFF
      requires fsize <= 0xFFFF_FFFF
      modifies `written, fs`winsect, fs`wflag, fs`media, fs`durable, fs`faults, fs`log, fs`fat, fs`cuts, fs`fsiFlag
      modifies fs.win
      ensures Ready() && fs.faults >= old(fs.faults)
      ensures res == FR_OK || (res == FR_DISK_ERR && fs.faults > old(fs.faults))
      ensures res == FR_OK ==> OK() && !written && File(fs.g, S()) == old(File(fs.g, S())) && fs.fat == old(fs.fat)
      ensures res == FR_OK ==>
                !fs.wflag && fs.durable == |fs.log| && EntryOnMedia(fs.media, dirSect, dirOff, fsize, sclust, tm)
      ensures CutsHold(fs.g.fsType, old(fs.cuts)) ==> CutsHold(fs.g.fsType, fs.cuts)
      ensures StaysBut(fs.g, old(S()), old(fs.Now()), S(), fs.Now(), {dirSect}, res == FR_OK)
      ensures res == FR_OK ==> EntryUpdated(old(fs.View()), fs.View(), dirSect, dirOff, fsize, sclust, tm)
    {
      hide *;
      SIs();
      OKIs();
      fs.Facts();
      DirEntryApartIs(fs.g, S(), dirSect);
      ghost var s0, a := S(), fs.Now();
      res := fs.MoveWindow(dirSect);
      ReadyIntro();
      fs.Facts();
      SIs();
      EntryStays(fs.g, s0, S(), a, a.view, fs.Now(), dirSect, 0, [], res == FR_OK);
      if res == FR_OK {
        SIs();
        fs.Facts();
        ElsewhereIntro(fs.g, s0, S(), dirSect);
        WindowToEntry(fs.g, s0, S(), dirSect);
        FileOf(fs.g, s0);
        FileOf(fs.g, S());
        DirEntryApartKept(fs.g, s0, S(), dirSect);
        OKIntro();
        ghost var s1, a1 := S(), fs.Now();
        SectorSame(fs.g, a.view, a1.view, dirSect);
        res := StoreEntry(tm);
        if res == FR_OK { EntryUpdatedAfter(a.view, a1.view, fs.View(), dirSect, dirOff, fsize, sclust, tm); }
        StaysButTrans(fs.g, s0, a, s1, a1, S(), fs.Now(), {dirSect}, res == FR_OK);
      }
    }

    /** The entry is in the window: store the new fields, then synchronise the volume. */
    method StoreEntry(tm: nat) returns (res: FResult)
      requires OK() && !dirty && DirEntryApart(fs.g, S(), dirSect) && dirOff + 32 <= 512 && tm <= 0xFFFF_FFFF
      requires fs.winsect == dirSect
      requires fsize <= 0xFFFF_FFFF
      modifies `written, fs`winsect, fs`wflag, fs`media, fs`durable, fs`faults, fs`log, fs`fat, fs`cuts, fs`fsiFlag
      modifies fs.win
      ensures Ready() && fs.faults >= old(fs.faults)
      ensures res == FR_OK || (res == FR_DISK_ERR && fs.faults > old(fs.faults))
      ensures res == FR_OK ==> OK() && !written && File(fs.g, S()) == old(File(fs.g, S())) && fs.fat == old(fs.fat)
      ensures res == FR_OK ==>
                !fs.wflag && fs.durable == |fs.log| && EntryOnMedia(fs.media, dirSect, dirOff, fsize, sclust, tm)
      ensures CutsHold(fs.g.fsType, old(fs.cuts)) ==> CutsHold(fs.g.fsType, fs.cuts)
      ensures StaysBut(fs.g, old(S()), old(fs.Now()), S(), fs.Now(), {dirSect}, res == FR_OK)
      ensures res == FR_OK ==> EntryUpdated(old(fs.View()), fs.View(), dirSect, dirOff, fsize, sclust, tm)
    {
      hide *;
      SIs();
      OKIs();
      fs.Facts();
      DirEntryApartIs(fs.g, S(), dirSect);
      ghost var s0, v0, a := S(), fs.View(), fs.Now();
      HeapOf(fs.g, s0);
      StartFits(fs.g, s0);
      var entry := UpdatedEntry(fs.win[dirOff..dirOff + 32], fsize, sclust, tm);
      fs.Store(dirOff, entry);
      CutsMore(fs.g.fsType, old(fs.cuts), fs.fat);
      ghost var v1 := fs.View();
      SIs();
      written := false;
      fs.Facts();
      res := fs.SyncFs();
      ReadyIntro();
      fs.Facts();
      SIs();
      EntryStays(fs.g, s0, S(), a, v1, fs.Now(), dirSect, dirOff, entry, res == FR_OK);
      if res == FR_OK {
        ElsewhereIntro(fs.g, s0, S(), dirSect);
        WindowToEntry(fs.g, s0, S(), dirSect);
        FileOf(fs.g, s0);
        FileOf(fs.g, S());
        OKIntro();
        fs.Facts();
        UpdatedEntryIs(old(fs.win[dirOff..dirOff + 32]), fsize, sclust, tm);
        EntryUpdatedIntro(fs.g, v0, v1, fs.View(), dirSect, dirOff, entry, fsize, sclust, tm);
        EntryStored(fs.g, v0, v1, fs.View(), fs.media, dirSect, dirOff, entry);
        EntryOnMediaIntro(fs.media, dirSect, dirOff, old(fs.win[dirOff..dirOff + 32]), entry, fsize, sclust, tm);
      }
    }
  }

  /** Of the sector of the directory entry, only the entry has changed: it is brought up to date. */
  ghost predicate EntryUpdated(v: seq<Sector>, v': seq<Sector>, sect: nat, off: nat, size: nat, clust: nat, tm: nat) {
    && |v'| == |v| && sect < |v| && off + 32 <= 512 && size < 0x1_0000_0000 && tm < 0x1_0000_0000
    && v'[sect] == Splice(v[sect], off, UpdatedEntry(v[sect][off..off + 32], size, clust, tm))
  }

  lemma EntryUpdatedIntro(g: Geometry, v0: seq<Sector>, v1: seq<Sector>, v2: seq<Sector>, sect: nat, off: nat,
                          e: seq<byte>, size: nat, clust: nat, tm: nat)
    requires |e| == 32 && off + 32 <= 512 && sect < |v0| && v1 == Apply(v0, Patch(sect, off, e)) && size < 0x1_0000_0000
    requires tm < 0x1_0000_0000
    requires SameSectors(g, v1, v2) && !g.InFat2(sect) && !g.IsFsInfo(sect)
    requires e == UpdatedEntry(v0[sect][off..off + 32], size, clust, tm)
    ensures EntryUpdated(v0, v2, sect, off, size, clust, tm)
  {
  }

  /** The sector holds the same in both. */
  ghost predicate SameAt(v: seq<Sector>, v': seq<Sector>, sect: nat) {
    |v'| == |v| && sect < |v| && v'[sect] == v[sect]
  }

  lemma SameAtSelf(v: seq<Sector>, sect: nat)
    requires sect < |v|
    ensures SameAt(v, v, sect)
  {
  }

  lemma EntryUpdatedAfter(v0: seq<Sector>, v1: seq<Sector>, v2: seq<Sector>, sect: nat, off: nat, size: nat, clust: nat,
                          tm: nat)
    requires EntryUpdated(v1, v2, sect, off, size, clust, tm) && SameAt(v0, v1, sect)
    ensures EntryUpdated(v0, v2, sect, off, size, clust, tm)
  {
  }

  lemma SectorSame(g: Geometry, v: seq<Sector>, v': seq<Sector>, sect: nat)
    requires SameSectors(g, v, v') && sect < |v| && !g.InFat2(sect) && !g.IsFsInfo(sect)
    ensures SameAt(v, v', sect)
  {
  }

  /** Writing the buffer back does not touch the directory entry. */
  lemma FlushElsewhere(g: Geometry, s: FState, a: Snapshot, b: Snapshot, sect: nat)
    requires Core(g, s) && s.dirty && Tidy(g, s) && DirEntryApart(g, s, sect) && DataStep(s.dsect, 1, a, b)
    requires |a.view| == |a.media| == g.nsect
    ensures SameAt(a.view, b.view, sect)
  {
    ChainRange(g, s);
    var c :| c in s.chain && c >= 2 && InCluster(g, c, s.dsect);
    assert sect != s.dsect;
  }

  /** The sectors of the chain hold the file. */
  ghost predicate OnMedia(g: Geometry, m: seq<Sector>, chain: seq<nat>, size: nat, file: seq<byte>) {
    && Clusters(g, chain) && SectorsIn(m, Secs(g, chain)) && size <= 512 * |Secs(g, chain)|
    && Content(m, Secs(g, chain))[..size] == file
  }

  /** The directory entry on the drive has the size at byte 28, the time at 22 and the first cluster at 26 and 20. */
  ghost predicate EntryOnMedia(m: seq<Sector>, sect: nat, off: nat, size: nat, clust: nat, tm: nat) {
    && sect < |m| && off + 32 <= 512
    && var e := m[sect][off..off + 32];
       && Le32(e, 28) == size && Le32(e, 22) == tm
       && e[26] as int + 0x100 * e[27] as int + 0x1_0000 * e[20] as int + 0x100_0000 * e[21] as int == clust
  }

  lemma OnMediaIntro(g: Geometry, s: FState, file: seq<byte>)
    requires Core(g, s) && file == File(g, s) && Clusters(g, s.chain) && SectorsIn(s.media, Secs(g, s.chain))
    requires s.fsize <= 512 * |Secs(g, s.chain)| && Content(s.media, Secs(g, s.chain))[..s.fsize] == File(g, s)
    ensures OnMedia(g, s.media, s.chain, s.fsize, file)
  {
  }

  lemma EntryOnMediaIntro(m: seq<Sector>, sect: nat, off: nat, e0: seq<byte>, e: seq<byte>, size: nat, clust: nat,
                          tm: nat)
    requires sect < |m| && off + 32 <= 512 && Updates(e0, e, size, clust, tm) && m[sect][off..off + 32] == e
    ensures EntryOnMedia(m, sect, off, size, clust, tm)
  {
    hide Le32;
  }

  lemma ElsewhereIntro(g: Geometry, s: FState, s': FState, sect: nat)
    requires |s'.media| == |s.media| && (s'.winsect == sect || g.IsFsInfo(s'.winsect))
    requires forall x: nat :: g.database <= x < |s.media| && x != s.winsect ==> s'.media[x] == s.media[x]
    ensures Elsewhere(g, s, s', sect)
  {
  }

  /** Bytes stored in the window and synchronised are on the drive. */
  lemma EntryStored(g: Geometry, v0: seq<Sector>, v1: seq<Sector>, v2: seq<Sector>, m: seq<Sector>, sect: nat, off: nat,
                    e: seq<byte>)
    requires |e| == 32 && off + 32 <= 512 && sect < |v0| && v1 == Apply(v0, Patch(sect, off, e))
    requires SameSectors(g, v1, v2) && SameSectors(g, v2, m) && !g.InFat2(sect) && !g.IsFsInfo(sect)
    ensures sect < |m| && m[sect][off..off + 32] == e
  {
    assert v1[sect][off..off + 32] == e;
  }

  lemma BeforeNothing(g: Geometry)
    requires g.csize >= 1
    ensures ClustersBefore(g, 0) == 0
  {
  }

  lemma EndedNowhere(s: FState, mark: nat)
    requires forall i :: 0 <= i < |s.chain| ==> s.chain[i] < |s.fat|
    ensures Ended(s.fat, s.chain, 0, mark) == s.fat
  {
  }

  lemma EndedAfter(s: FState, k: nat, mark: nat)
    requires 0 < k <= |s.chain| && forall i :: 0 <= i < |s.chain| ==> s.chain[i] < |s.fat|
    ensures Ended(s.fat, s.chain, k, mark) == s.fat[s.chain[k - 1] := mark]
  {
  }

  lemma CutStateIs(s0: FState, fat: seq<nat>, media: seq<Sector>, winsect: nat, k: nat, sclust: nat)
    requires k <= |s0.chain| && sclust == if k == 0 then 0 else s0.sclust
    ensures CutTo(s0, FState(fat, media, winsect, s0.chain[..k], s0.buf, s0.dsect, s0.dirty, sclust, s0.clust,
                             s0.fptr, s0.fptr), k)
  {
  }

  /** A direct write: the bytes of the file, the buffer, and what else is touched. */
  lemma SentDirectly(g: Geometry, s: FState, s': FState, a: Snapshot, b: Snapshot, q: nat, cc: nat, data: seq<byte>)
    requires AtSector(g, s, q) && !s.dirty && 0 < cc && q % g.csize + cc <= g.csize && |data| == 512 * cc
    requires |s.buf| == 512
    requires Clusters(g, s.chain) && q < |Secs(g, s.chain)| && Sent(s.media, s'.media, Secs(g, s.chain)[q], cc, data)
    requires s' == s.(media := s'.media, buf := Refilled(s.buf, s.dsect, Secs(g, s.chain)[q], cc, data),
                      fptr := s.fptr + 512 * cc)
    requires DataStep(Secs(g, s.chain)[q], cc, a, b) && |a.view| == |a.media| && s.media == a.media
    requires s'.media == b.media
    ensures FileOK(g, s') && Core(g, s') && Core(g, s)
    ensures WroteAt(Stored(g, s), Stored(g, s'), s.fptr, data, |Stored(g, s)|)
    ensures Matched(g, s, Known(s.fptr, s.fsize)) ==> Matched(g, s', Known(s'.fptr, s.fsize))
    ensures Stays(g, s, a, s', b, true)
  {
    hide *;
    AtSectorIs(g, s, q);
    DirectWrote(g, s, s', q, cc, data);
    if Matched(g, s, Known(s.fptr, s.fsize)) {
      KnownIs(s.fptr, s'.fptr, s.fsize);
      MatchedRun(g, s, s', q, cc, data, Known(s.fptr, s.fsize), Known(s'.fptr, s.fsize));
    }
    RunStays(g, s, s', a, b, q, cc, true);
  }

  lemma TookOut(g: Geometry, s0: FState, s2: FState, s3: FState, n: nat, chunk: seq<byte>)
    requires s2.fptr == s0.fptr && FromBuffer(s2, s3, chunk) && |chunk| == SectorPart(s2.fptr, n)
    requires s3.media == s2.media && s3.chain == s2.chain
    requires Buffered(g, s0, n) ==> s2.dsect == s0.dsect && s2.buf == s0.buf && s2.dirty == s0.dirty
    requires s2.dsect != s0.dsect ==> Good(g, s2)
    ensures Buffered(g, s0, n) ==> |chunk| == n && FromBuffer(s0, s3, chunk)
    ensures s3.dsect != s0.dsect ==> Good(g, s3)
  {
    hide Good, SectorPart;
    if s2.dsect != s0.dsect { GoodSame(g, s2, s3); }
  }

  /** One more transfer of a read. */
  lemma ReadNext(g: Geometry, s0: FState, s1: FState, a1: Snapshot, s2: FState, b: Snapshot, n: nat, left: nat,
                 data: seq<byte>, chunk: seq<byte>)
    requires Stays(g, s1, a1, s2, b, true) && Core(g, s1) && 0 < left <= n
    requires Buffered(g, s0, n) ==> data == [] && s1 == s0
    requires Buffered(g, s1, left) ==> |chunk| == left && FromBuffer(s1, s2, chunk)
    requires s1.dsect != s0.dsect ==> Good(g, s1)
    requires s2.dsect != s1.dsect ==> Good(g, s2)
    ensures Buffered(g, s0, n) ==> |chunk| == left && FromBuffer(s0, s2, data + chunk)
    ensures s2.dsect != s0.dsect ==> Good(g, s2)
  {
    hide Stays, Core, Good, FromBuffer;
    if s1.dsect != s0.dsect { GoodStays(g, s1, a1, s2, b); }
    if Buffered(g, s0, n) { assert data + chunk == chunk; }
  }

  lemma NotBuffered(g: Geometry, s: FState, n: nat)
    requires n >= 512
    ensures !Buffered(g, s, n)
  {
  }

  lemma BufferedAs(g: Geometry, s: FState, s1: FState, n: nat)
    requires s1.fptr == s.fptr && s1.chain == s.chain && s1.dsect == s.dsect
    ensures Buffered(g, s, n) <==> Buffered(g, s1, n)
  {
  }

  lemma FromBufferAs(s: FState, s1: FState, s2: FState, data: seq<byte>)
    requires s1.fptr == s.fptr && s1.dsect == s.dsect && s1.buf == s.buf && s1.dirty == s.dirty
    ensures FromBuffer(s, s2, data) <==> FromBuffer(s1, s2, data)
  {
  }

  /** Changing the position first makes no difference to the buffer. */
  lemma LandedBuffer(g: Geometry, s0: FState, s1: FState, s2: FState)
    requires s1 == s0.(fptr := s1.fptr) && Reloaded(g, s1, s2) && DiskKept(g, s1, s2)
    ensures Reloaded(g, s0, s2) && DiskKept(g, s0, s2)
  {
  }

  lemma ReloadedAlso(g: Geometry, s0: FState, s1: FState, s2: FState)
    requires s2 == s1.(fsize := s2.fsize) && Reloaded(g, s0, s1) && DiskKept(g, s0, s1)
    ensures Reloaded(g, s0, s2) && DiskKept(g, s0, s2)
  {
  }

  lemma AtLimitKept(g: Geometry, s: FState, s': FState)
    requires s'.fptr == s.fptr && s'.chain == s.chain
    ensures AtLimit(g, s) ==> AtLimit(g, s')
  {
  }

  /** What a release leaves of the buffer's match. */
  lemma CutMatched(g: Geometry, s0: FState, s1: FState, k: nat)
    requires Core(g, s0) && MediaStep(g, s0, s1) && k <= |s0.chain| && s1.chain == s0.chain[..k] && s1.fsize <= s0.fsize
    requires s1.dsect == s0.dsect && s1.dirty == s0.dirty && s1.buf == s0.buf
    ensures DiskKept(g, s0, s1)
    ensures Matched(g, s0, s0.fsize) ==> Matched(g, s1, s1.fsize)
  {
    hide *;
    DiskOfMedia(g, s0, s1);
    if Matched(g, s0, s0.fsize) {
      MatchedCut(g, s0, s1, k, s0.fsize);
      MatchedLess(g, s1, s0.fsize, s1.fsize);
    }
  }

  /** What writing the dirty buffer back leaves of it. */
  lemma FlushMatched(g: Geometry, s0: FState, s1: FState, a1: Snapshot, s2: FState, b: Snapshot)
    requires g.Valid() && |s0.media| == g.nsect && DiskKept(g, s0, s1) && DiskKept(g, s1, s2)
    requires FileOK(g, s1) && Stays(g, s1, a1, s2, b, true) && s2.fsize == s1.fsize
    ensures DiskKept(g, s0, s2)
    ensures Matched(g, s1, s1.fsize) ==> Matched(g, s2, s2.fsize)
  {
    hide *;
    FileOKIs(g, s1);
    CoreIs(g, s1);
    DiskTrans(g, s0, s1, s2);
    if Matched(g, s1, s1.fsize) { StaysMatched(g, s1, a1, s2, b, s1.fsize); }
  }

  /** After a seek the file is one of plain bytes unless the buffer has become visible in the gap. */
  lemma GapAfter(g: Geometry, s0: FState, a: Snapshot, s: FState, b: Snapshot)
    requires Stays(g, s0, a, s, b, true) && Core(g, s0) && s0.fsize <= s.fsize
    ensures Matched(g, s0, s0.fsize) ==> (Matched(g, s, s.fsize) <==> !GapDiffers(g, s, s0.fsize))
  {
    hide *;
    CoreIs(g, s0);
    if Matched(g, s0, s0.fsize) {
      StaysMatched(g, s0, a, s, b, s0.fsize);
      GapMatched(g, s, s0.fsize);
    }
  }

  lemma HasStart(g: Geometry, s: FState, q: nat)
    requires AtSector(g, s, q)
    ensures s.sclust != 0
  {
  }

  lemma NoStart(g: Geometry, s: FState)
    requires Core(g, s) && s.sclust == 0
    ensures s.fsize == 0
  {
  }

  lemma TakenOut(s: FState, s': FState, n: nat)
    requires s'.dsect == s.dsect && s'.buf == s.buf && s'.dirty == s.dirty && s.fptr % 512 + n <= |s.buf|
    ensures FromBuffer(s, s', s.buf[s.fptr % 512..s.fptr % 512 + n])
  {
  }

  /** The bytes `d` are in `s` from `p` on. */
  ghost predicate Holds(s: seq<byte>, p: nat, d: seq<byte>) {
    p + |d| <= |s| && s[p..p + |d|] == d
  }

  lemma HoldsSlice(s: seq<byte>, p: nat, n: nat)
    requires p + n <= |s|
    ensures Holds(s, p, s[p..p + n])
  {
  }

  lemma HoldsIs(s: seq<byte>, p: nat, d: seq<byte>)
    requires Holds(s, p, d)
    ensures p + |d| <= |s| && s[p..p + |d|] == d
  {
  }

  lemma SliceOfPrefix(s: seq<byte>, a: nat, b: nat, c: nat)
    requires a <= b <= c <= |s|
    ensures s[..c][a..b] == s[a..b]
  {
  }

  lemma JoinSlices(s: seq<byte>, a: nat, b: nat, c: nat)
    requires a <= b <= c <= |s|
    ensures s[a..b] + s[b..c] == s[a..c]
  {
  }

  lemma GrownTrans(a: seq<byte>, b: seq<byte>, c: seq<byte>)
    requires Grown(a, b) && Grown(b, c)
    ensures Grown(a, c)
  {
    assert c[..|a|] == c[..|b|][..|a|];
  }

  lemma GrownFile(st: seq<byte>, st': seq<byte>, size: nat, size': nat)
    requires Grown(st, st') && size <= |st| && size <= size' <= |st'|
    ensures st'[..size'][..size] == st[..size]
  {
    assert st'[..size'][..size] == st'[..|st|][..size];
  }
}
