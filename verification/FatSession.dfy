/** Runs of calls on a mounted volume: opening, creating, emptying and removing files in its directories,
    and reading, writing, seeking, truncating, synchronising and closing any of those that are open. */
module FatSession {
  import opened Bytes
  import opened FatEntry
  import opened FatVolume
  import opened FatHeap
  import opened FatChain
  import opened FatData
  import opened FatFileState
  import opened FatApart
  import opened FatDirState
  import opened FatFile
  import opened FatDir
  import opened FatOpen
  import opened FatHolders
  import opened FatWorld
  import opened FatShows
  import opened FatStart
  import M = FatModel

  // ---------- Calls on one file ----------

  /** The file object as a value. */
  ghost function Seen(f: Fil, at: Owner): OpenFile
    reads f, f.buf, f.fs
  {
    OpenFile(f.S(), at, f.canRead, f.canWrite, f.written, f.dirSect, f.dirOff)
  }

  lemma SeenIs(f: Fil, at: Owner)
    ensures Seen(f, at) == OpenFile(f.S(), at, f.canRead, f.canWrite, f.written, f.dirSect, f.dirOff)
  {
  }

  /** A file between two calls, no error noted. */
  ghost predicate Steady(f: Fil)
    reads f, f.buf, f.fs, f.fs.win
  {
    && f.OK() && f.err == FR_OK && f.fptr <= f.fsize <= ALL_ONES && f.dirOff + 32 <= 512 && Tidy(f.fs.g, f.S())
    && (f.dirty ==> f.written)
  }

  lemma SteadyIs(f: Fil)
    requires Steady(f)
    ensures f.OK() && f.err == FR_OK && f.fptr <= f.fsize <= ALL_ONES && f.dirOff + 32 <= 512 && Tidy(f.fs.g, f.S())
    ensures f.dirty ==> f.written
    ensures FileOK(f.fs.g, f.S()) && Core(f.fs.g, f.S()) && f.fs.Valid()
  {
  }

  lemma SteadyIntro(f: Fil)
    requires f.Ready() && FileOK(f.fs.g, f.S()) && f.err == FR_OK && f.fptr <= f.fsize <= ALL_ONES
    requires f.dirOff + 32 <= 512
    requires Tidy(f.fs.g, f.S()) && (f.dirty ==> f.written)
    ensures Steady(f) && Core(f.fs.g, f.S())
  {
  }

  /** A successful call that leaves the directories alone, between two values of the file object. */
  ghost predicate Called(g: Geometry, x: OpenFile, a: Snapshot, y: OpenFile, b: Snapshot, call: M.Call, r: M.Reply)
    requires x.OpenFile? && y.OpenFile?
  {
    && y == x.(state := y.state, written := y.written) && FileOK(g, y.state) && Tidy(g, y.state)
    && Local(g, x.state, a, y.state, b, {}) && y.state.media == b.media && y.state.winsect == b.winsect
    && (y.state.dirty ==> y.written) && y.state.fptr <= y.state.fsize <= ALL_ONES
    && (y.written || (y.state.sclust == x.state.sclust && y.state.fsize == x.state.fsize && !x.written))
    && Core(g, x.state) && Core(g, y.state)
    && M.FileDoes(ModelOf(g, x.state), x.canRead, x.canWrite, call, r, ModelOf(g, y.state), NoneFree(y.state.fat))
  }

  lemma CalledIs(g: Geometry, x: OpenFile, a: Snapshot, y: OpenFile, b: Snapshot, call: M.Call, r: M.Reply)
    requires x.OpenFile? && y.OpenFile?
    ensures Called(g, x, a, y, b, call, r) <==>
            && y == x.(state := y.state, written := y.written) && FileOK(g, y.state) && Tidy(g, y.state)
            && Local(g, x.state, a, y.state, b, {}) && y.state.media == b.media && y.state.winsect == b.winsect
            && (y.state.dirty ==> y.written) && y.state.fptr <= y.state.fsize <= ALL_ONES
            && (y.written || (y.state.sclust == x.state.sclust && y.state.fsize == x.state.fsize && !x.written))
            && Core(g, x.state) && Core(g, y.state)
            && M.FileDoes(ModelOf(g, x.state), x.canRead, x.canWrite, call, r, ModelOf(g, y.state),
                          NoneFree(y.state.fat))
  {
    hide FileOK, Tidy, Local, Core, ModelOf, M.FileDoes, NoneFree;
  }

  /** The part of it that does not depend on what the call is for. */
  lemma CalledIntro(f: Fil, x: OpenFile, a: Snapshot, call: M.Call, r: M.Reply)
    requires x.OpenFile? && Steady(f) && Core(f.fs.g, f.S()) && Core(f.fs.g, x.state)
    requires Seen(f, x.at) == x.(state := f.S(), written := f.written)
    requires Local(f.fs.g, x.state, a, f.S(), f.fs.Now(), {})
    requires f.written || (f.sclust == x.state.sclust && f.fsize == x.state.fsize && !x.written)
    requires M.FileDoes(ModelOf(f.fs.g, x.state), x.canRead, x.canWrite, call, r, ModelOf(f.fs.g, f.S()),
                        NoneFree(f.fs.fat))
    ensures Called(f.fs.g, x, a, Seen(f, x.at), f.fs.Now(), call, r)
  {
    hide *;
    SteadyIs(f);
    f.SIs();
    f.fs.NowIs();
    SeenIs(f, x.at);
    CalledIs(f.fs.g, x, a, Seen(f, x.at), f.fs.Now(), call, r);
  }

  /** A good buffer agrees with the drive. */
  lemma ModelFlags(g: Geometry, s: FState)
    requires Core(g, s)
    ensures ModelOf(g, s) == M.Model(File(g, s), s.fptr, Matched(g, s, s.fsize), Good(g, s))
    ensures ModelOf(g, s).good ==> ModelOf(g, s).sure
    ensures |ModelOf(g, s).data| == s.fsize
  {
    if Good(g, s) { GoodMatched(g, s, s.fsize); }
    hide Core, File, Matched, Good;
  }

  lemma KeptFlags(g: Geometry, s: FState, s': FState)
    requires Core(g, s) && Tidy(g, s) && BufferKept(g, s, s')
    ensures Matched(g, s, s.fsize) ==> Matched(g, s', s.fsize)
    ensures Good(g, s) ==> Good(g, s')
  {
    CoreIs(g, s);
    if Matched(g, s, s.fsize) { KeptMatched(g, s, s', s.fsize); }
    hide Core, Matched, Good, Tidy;
  }

  lemma AllOnesIs()
    ensures ALL_ONES == 0xFFFF_FFFF
  {
  }

  /** A refused call leaves the file as it was. */
  lemma RefusedDoes(g: Geometry, s: FState, canRead: bool, canWrite: bool, call: M.Call, r: M.Reply, full: bool)
    requires Core(g, s) && r.Reply? && r.res == FR_DENIED && s.fptr <= s.fsize
    requires (call.Read? && !canRead) || ((call.Write? || call.Truncate?) && !canWrite)
    ensures M.FileDoes(ModelOf(g, s), canRead, canWrite, call, r, ModelOf(g, s), full)
  {
    ModelFlags(g, s);
    hide Core, ModelOf;
  }

  lemma ReadDoes(g: Geometry, s: FState, s': FState, n: nat, canRead: bool, canWrite: bool, r: M.Reply, full: bool)
    requires Core(g, s) && Core(g, s') && Tidy(g, s) && BufferKept(g, s, s') && r.Reply? && canRead && r.res == FR_OK
    requires s.fptr <= s.fsize && s'.fsize == s.fsize && File(g, s') == File(g, s)
    requires |r.data| == (if n <= s.fsize - s.fptr then n else s.fsize - s.fptr)
    requires s'.fptr == s.fptr + |r.data| <= s.fsize
    requires Matched(g, s, s.fsize) ==> r.data == File(g, s')[s.fptr..s'.fptr]
    ensures M.FileDoes(ModelOf(g, s), canRead, canWrite, M.Read(n), r, ModelOf(g, s'), full)
  {
    ModelFlags(g, s);
    ModelFlags(g, s');
    KeptFlags(g, s, s');
    hide Core, File, Matched, Good, Tidy, BufferKept, ModelOf;
  }

  /** The calls, each as the model has it. */
  method DoRead(f: Fil, n: nat, ghost at: Owner) returns (r: M.Reply)
    requires Steady(f)
    modifies f`clust, f`dirty, f`dsect, f`fptr, f`err, f.buf
    modifies f.fs`winsect, f.fs`wflag, f.fs`media, f.fs`durable, f.fs`faults, f.fs`direct, f.fs.win
    ensures r.Reply? && f.fs.faults >= old(f.fs.faults) && f.fs.Valid() && (old(f.CutsOK()) ==> f.CutsOK())
    ensures r.res == FR_DISK_ERR ==> f.fs.faults > old(f.fs.faults)
    ensures r.res != FR_DISK_ERR ==>
              Steady(f) && Called(f.fs.g, old(Seen(f, at)), old(f.fs.Now()), Seen(f, at), f.fs.Now(), M.Read(n), r)
    ensures r.res != FR_DISK_ERR && old(f.CountOK()) ==> f.CountOK()
  {
    hide *;
    SteadyIs(f);
    f.SIs();
    f.HeapFacts();
    SeenIs(f, at);
    ghost var g, s, a, x := f.fs.g, f.S(), f.fs.Now(), Seen(f, at);
    var res, data := f.FRead(n);
    r := M.Reply(res, data, 0);
    f.SIs();
    SeenIs(f, at);
    if res != FR_DISK_ERR {
      StaysKept(g, s, a, f.S(), f.fs.Now(), {});
      if f.canRead { f.OKIs(); }
      SteadyIntro(f);
      if f.canRead { ReadDoes(g, s, f.S(), n, f.canRead, f.canWrite, r, NoneFree(f.fs.fat)); }
      else { RefusedDoes(g, s, f.canRead, f.canWrite, M.Read(n), r, NoneFree(f.fs.fat)); }
      CalledIntro(f, x, a, M.Read(n), r);
    }
    f.HeapFacts();
    f.ReadyIs();
  }

  lemma WriteDoes(g: Geometry, s: FState, s': FState, d: seq<byte>, canRead: bool, canWrite: bool, r: M.Reply,
                  full: bool)
    requires Core(g, s) && Core(g, s') && Tidy(g, s) && BufferKept(g, s, s') && r.Reply? && canWrite && r.res == FR_OK
    requires r.n <= |d|
    requires s.fptr <= s.fsize
    requires s'.fptr == s.fptr + r.n <= s'.fsize == (if s'.fptr > s.fsize then s'.fptr else s.fsize)
    requires r.n == |d| || full || (r.n == 0 && s.fptr + |d| > ALL_ONES)
    requires Matched(g, s, s.fsize) ==>
              Matched(g, s', s'.fsize) && File(g, s') == Overwrite(File(g, s), s.fptr, d[..r.n])
    ensures M.FileDoes(ModelOf(g, s), canRead, canWrite, M.Write(d), r, ModelOf(g, s'), full)
  {
    ModelFlags(g, s);
    ModelFlags(g, s');
    KeptFlags(g, s, s');
    hide Core, File, Matched, Good, Tidy, BufferKept, ModelOf, Overwrite;
  }

  method DoWrite(f: Fil, d: seq<byte>, ghost at: Owner) returns (r: M.Reply)
    requires Steady(f) && |d| <= ALL_ONES
    modifies f`clust, f`sclust, f`chain, f`dirty, f`dsect, f`fptr, f`fsize, f`written, f`err, f.buf
    modifies f.fs`winsect, f.fs`wflag, f.fs`media, f.fs`durable, f.fs`faults, f.fs`direct, f.fs`log, f.fs`fat, f.fs`cuts
    modifies f.fs.win
    modifies f.fs`lastClust, f.fs`freeClust, f.fs`fsiFlag
    ensures r.Reply? && f.fs.faults >= old(f.fs.faults) && f.fs.Valid() && (old(f.CutsOK()) ==> f.CutsOK())
    ensures r.res == FR_DISK_ERR ==> f.fs.faults > old(f.fs.faults)
    ensures r.res != FR_DISK_ERR ==>
              Steady(f) && Called(f.fs.g, old(Seen(f, at)), old(f.fs.Now()), Seen(f, at), f.fs.Now(), M.Write(d), r)
    ensures r.res != FR_DISK_ERR && old(f.CountOK()) ==> f.CountOK()
  {
    hide *;
    SteadyIs(f);
    f.SIs();
    f.HeapFacts();
    SeenIs(f, at);
    ghost var g, s, a, x := f.fs.g, f.S(), f.fs.Now(), Seen(f, at);
    var res, bw := f.FWrite(d);
    r := M.Reply(res, [], bw);
    f.SIs();
    SeenIs(f, at);
    if res != FR_DISK_ERR {
      StaysKept(g, s, a, f.S(), f.fs.Now(), {});
      if f.canWrite { f.OKIs(); }
      SteadyIntro(f);
      if f.canWrite { WriteDoes(g, s, f.S(), d, f.canRead, f.canWrite, r, NoneFree(f.fs.fat)); }
      else { RefusedDoes(g, s, f.canRead, f.canWrite, M.Write(d), r, NoneFree(f.fs.fat)); }
      CalledIntro(f, x, a, M.Write(d), r);
    }
    f.HeapFacts();
    f.ReadyIs();
  }

  lemma NoGap(g: Geometry, s: FState)
    ensures !GapDiffers(g, s, s.fsize)
  {
  }

  lemma SeekDoes(g: Geometry, s: FState, s': FState, ofs: dword, canRead: bool, canWrite: bool, r: M.Reply, full: bool)
    requires Core(g, s) && Core(g, s') && Tidy(g, s) && BufferKept(g, s, s') && r.Reply? && r.res == FR_OK
    requires s.fptr <= s.fsize && s'.fptr <= s'.fsize == (if s'.fptr > s.fsize then s'.fptr else s.fsize)
    requires var target := if ofs > s.fsize && !canWrite then s.fsize else ofs;
             s'.fptr <= target && (s'.fptr == target || full)
    requires File(g, s')[..s.fsize] == File(g, s)
    requires Matched(g, s, s.fsize) ==> (Matched(g, s', s'.fsize) <==> !GapDiffers(g, s', s.fsize))
    ensures M.FileDoes(ModelOf(g, s), canRead, canWrite, M.Seek(ofs), r, ModelOf(g, s'), full)
  {
    ModelFlags(g, s);
    ModelFlags(g, s');
    KeptFlags(g, s, s');
    if s'.fsize == s.fsize { NoGap(g, s'); }
    hide Core, File, Matched, Good, Tidy, BufferKept, ModelOf, GapDiffers;
  }

  method DoSeek(f: Fil, ofs: dword, ghost at: Owner) returns (r: M.Reply)
    requires Steady(f)
    modifies f`clust, f`sclust, f`chain, f`dirty, f`dsect, f`fptr, f`fsize, f`written, f`err, f.buf
    modifies f.fs`winsect, f.fs`wflag, f.fs`media, f.fs`durable, f.fs`faults, f.fs`direct, f.fs`log, f.fs`fat, f.fs`cuts
    modifies f.fs.win
    modifies f.fs`lastClust, f.fs`freeClust, f.fs`fsiFlag
    ensures r.Reply? && f.fs.faults >= old(f.fs.faults) && f.fs.Valid() && (old(f.CutsOK()) ==> f.CutsOK())
    ensures r.res == FR_DISK_ERR ==> f.fs.faults > old(f.fs.faults)
    ensures r.res != FR_DISK_ERR ==>
              Steady(f) && Called(f.fs.g, old(Seen(f, at)), old(f.fs.Now()), Seen(f, at), f.fs.Now(), M.Seek(ofs), r)
    ensures r.res != FR_DISK_ERR && old(f.CountOK()) ==> f.CountOK()
  {
    hide *;
    SteadyIs(f);
    f.SIs();
    f.HeapFacts();
    SeenIs(f, at);
    AllOnesIs();
    ghost var g, s, a, x := f.fs.g, f.S(), f.fs.Now(), Seen(f, at);
    var res := f.FLseek(ofs);
    r := M.Reply(res, [], 0);
    f.SIs();
    SeenIs(f, at);
    if res != FR_DISK_ERR {
      StaysKept(g, s, a, f.S(), f.fs.Now(), {});
      f.OKIs();
      SteadyIntro(f);
      SeekDoes(g, s, f.S(), ofs, f.canRead, f.canWrite, r, NoneFree(f.fs.fat));
      CalledIntro(f, x, a, M.Seek(ofs), r);
    }
    f.HeapFacts();
    f.ReadyIs();
  }

  lemma TruncateDoes(g: Geometry, s: FState, s': FState, canRead: bool, canWrite: bool, r: M.Reply, full: bool)
    requires Core(g, s) && FileOK(g, s') && Core(g, s') && r.Reply? && canWrite && r.res == FR_OK
    requires s.fptr <= s.fsize && s'.fptr == s.fptr == s'.fsize && File(g, s') == File(g, s)[..s.fptr]
    requires Matched(g, s, s.fsize) ==> Matched(g, s', s'.fsize)
    requires if s.fptr < s.fsize then DiskKept(g, s, s') && s'.dsect == s.dsect && s'.buf == s.buf && !s'.dirty
             else s' == s
    ensures M.FileDoes(ModelOf(g, s), canRead, canWrite, M.Truncate, r, ModelOf(g, s'), full)
  {
    ModelFlags(g, s);
    ModelFlags(g, s');
    if s.fptr < s.fsize && Good(g, s) {
      CutGood(g, s, s');
      if s.fptr % 512 != 0 { PositionHome(g, s'); }
    }
    hide Core, FileOK, File, Matched, Good, ModelOf, DiskKept, AtHome;
  }

  method DoTruncate(f: Fil, ghost at: Owner) returns (r: M.Reply)
    requires Steady(f)
    modifies f`clust, f`sclust, f`chain, f`dirty, f`dsect, f`fptr, f`fsize, f`written, f`err, f.buf
    modifies f.fs`winsect, f.fs`wflag, f.fs`media, f.fs`durable, f.fs`faults, f.fs`direct, f.fs`log, f.fs`fat, f.fs`cuts
    modifies f.fs.win
    modifies f.fs`lastClust, f.fs`freeClust, f.fs`fsiFlag
    ensures r.Reply? && f.fs.faults >= old(f.fs.faults) && f.fs.Valid() && (old(f.CutsOK()) ==> f.CutsOK())
    ensures r.res == FR_DISK_ERR ==> f.fs.faults > old(f.fs.faults)
    ensures r.res != FR_DISK_ERR ==>
              Steady(f) && Called(f.fs.g, old(Seen(f, at)), old(f.fs.Now()), Seen(f, at), f.fs.Now(), M.Truncate, r)
    ensures r.res != FR_DISK_ERR && old(f.CountOK()) ==> f.CountOK()
  {
    hide *;
    SteadyIs(f);
    f.SIs();
    f.HeapFacts();
    SeenIs(f, at);
    ghost var g, s, a, x := f.fs.g, f.S(), f.fs.Now(), Seen(f, at);
    FileOf(g, s);
    var res := f.FTruncate();
    r := M.Reply(res, [], 0);
    f.SIs();
    SeenIs(f, at);
    if res != FR_DISK_ERR {
      StaysLocal(g, s, a, f.S(), f.fs.Now(), {});
      if f.canWrite { f.OKIs(); }
      SteadyIntro(f);
      if f.canWrite { TruncateDoes(g, s, f.S(), f.canRead, f.canWrite, r, NoneFree(f.fs.fat)); }
      else { RefusedDoes(g, s, f.canRead, f.canWrite, M.Truncate, r, NoneFree(f.fs.fat)); }
      CalledIntro(f, x, a, M.Truncate, r);
    }
    f.HeapFacts();
    f.ReadyIs();
  }

  /** A call that leaves the directories alone. */
  method Perform(f: Fil, call: M.Call, ghost at: Owner) returns (r: M.Reply)
    requires Steady(f) && !call.Sync? && (call.Write? ==> |call.data| <= ALL_ONES)
    modifies f`clust, f`sclust, f`chain, f`dirty, f`dsect, f`fptr, f`fsize, f`written, f`err, f.buf
    modifies f.fs`winsect, f.fs`wflag, f.fs`media, f.fs`durable, f.fs`faults, f.fs`direct, f.fs`log, f.fs`fat, f.fs`cuts
    modifies f.fs.win
    modifies f.fs`lastClust, f.fs`freeClust, f.fs`fsiFlag
    ensures r.Reply? && f.fs.faults >= old(f.fs.faults) && f.fs.Valid() && (old(f.CutsOK()) ==> f.CutsOK())
    ensures r.res == FR_DISK_ERR ==> f.fs.faults > old(f.fs.faults)
    ensures r.res != FR_DISK_ERR ==>
              Steady(f) && Called(f.fs.g, old(Seen(f, at)), old(f.fs.Now()), Seen(f, at), f.fs.Now(), call, r)
    ensures r.res != FR_DISK_ERR && old(f.CountOK()) ==> f.CountOK()
  {
    hide *;
    match call {
      case Read(n) => r := DoRead(f, n, at);
      case Write(d) => r := DoWrite(f, d, at);
      case Seek(ofs) => r := DoSeek(f, ofs, at);
      case Truncate => r := DoTruncate(f, at);
    }
  }

  /** A successful synchronisation, between two values of the file object: nothing was written since the
      last one, or the entry was brought up to date. */
  ghost predicate Synced(g: Geometry, x: OpenFile, a: Snapshot, y: OpenFile, b: Snapshot, tm: dword)
    requires x.OpenFile? && y.OpenFile?
  {
    if !x.written then y == x && b == a && !x.state.dirty
    else (
      && y == x.(state := y.state, written := false) && FileOK(g, y.state) && Tidy(g, y.state) && !y.state.dirty
      && Local(g, x.state, a, y.state, b, {x.sect}) && y.state.media == b.media && y.state.winsect == b.winsect
      && y.state.fat == x.state.fat && y.state.chain == x.state.chain
      && y.state.fptr == x.state.fptr <= y.state.fsize <= ALL_ONES
      && y.state.sclust == x.state.sclust && y.state.fsize == x.state.fsize && BufferKept(g, x.state, y.state)
      && Core(g, x.state) && Core(g, y.state) && File(g, y.state) == File(g, x.state)
      && EntryUpdated(a.view, b.view, y.sect, y.off, y.state.fsize, y.state.sclust, tm)
    )
  }

  lemma SyncedIs(g: Geometry, x: OpenFile, a: Snapshot, y: OpenFile, b: Snapshot, tm: dword)
    requires x.OpenFile? && y.OpenFile?
    ensures Synced(g, x, a, y, b, tm) <==>
            if !x.written then y == x && b == a && !x.state.dirty
            else (
              && y == x.(state := y.state, written := false) && FileOK(g, y.state) && Tidy(g, y.state) && !y.state.dirty
              && Local(g, x.state, a, y.state, b, {x.sect}) && y.state.media == b.media && y.state.winsect == b.winsect
              && y.state.fat == x.state.fat && y.state.chain == x.state.chain
              && y.state.fptr == x.state.fptr <= y.state.fsize <= ALL_ONES
              && y.state.sclust == x.state.sclust && y.state.fsize == x.state.fsize && BufferKept(g, x.state, y.state)
              && Core(g, x.state) && Core(g, y.state) && File(g, y.state) == File(g, x.state)
              && EntryUpdated(a.view, b.view, y.sect, y.off, y.state.fsize, y.state.sclust, tm)
            )
  {
    hide FileOK, Tidy, Local, Core, File, BufferKept, EntryUpdated;
  }

  method DoSync(f: Fil, tm: dword, ghost at: Owner) returns (res: FResult)
    requires Steady(f) && DirEntryApart(f.fs.g, f.S(), f.dirSect)
    modifies f`dirty, f`written
    modifies f.fs`winsect, f.fs`wflag, f.fs`media, f.fs`durable, f.fs`faults, f.fs`direct, f.fs`log, f.fs`fat, f.fs`cuts
    modifies f.fs`fsiFlag, f.fs.win
    ensures f.fs.faults >= old(f.fs.faults) && f.fs.Valid() && (old(f.CutsOK()) ==> f.CutsOK())
    ensures res == FR_OK || (res == FR_DISK_ERR && f.fs.faults > old(f.fs.faults))
    ensures res == FR_OK ==> Steady(f) && Synced(f.fs.g, old(Seen(f, at)), old(f.fs.Now()), Seen(f, at), f.fs.Now(), tm)
    ensures res == FR_OK && old(f.CountOK()) ==> f.CountOK()
  {
    hide *;
    SteadyIs(f);
    f.SIs();
    f.HeapFacts();
    SeenIs(f, at);
    f.fs.NowIs();
    AllOnesIs();
    ghost var g, s, a, x := f.fs.g, f.S(), f.fs.Now(), Seen(f, at);
    res := f.FSync(tm);
    f.SIs();
    SeenIs(f, at);
    f.fs.NowIs();
    if res == FR_OK {
      StaysButKept(g, s, a, f.S(), f.fs.Now(), {f.dirSect});
      f.OKIs();
      SteadyIntro(f);
      SyncedIs(g, x, a, Seen(f, at), f.fs.Now(), tm);
    }
    f.HeapFacts();
    f.ReadyIs();
  }

  // ---------- A volume with its file objects ----------

  /** The volume, the file objects and the world, as values. */
  datatype State = State(v: Vol, opens: seq<OpenFile>, w: M.World)

  /** The file object, apart from what it shares with the volume, is this value; a closed one is gone. */
  ghost predicate Keeps(fs: FatFs, f: Fil?, x: OpenFile)
    reads if f == null then {} else {f, f.buf}
  {
    if f == null then x.Shut?
    else
      && x.OpenFile? && f.fs == fs && f.buf != fs.win && f.buf.Length == 512 && f.err == FR_OK && f.dirOff + 32 <= 512
      && x.canRead == f.canRead && x.canWrite == f.canWrite && x.written == f.written && x.sect == f.dirSect
      && x.off == f.dirOff
      && x.state == FState(x.state.fat, x.state.media, x.state.winsect, f.chain, f.buf[..], f.dsect, f.dirty, f.sclust,
                           f.clust, f.fptr, f.fsize)
  }

  /** The file objects are these values, and different objects. */
  ghost predicate Mirrors(fs: FatFs, files: seq<Fil?>, opens: seq<OpenFile>)
    reads set f | f in files && f != null :: f, set f | f in files && f != null :: f.buf
  {
    && |files| == |opens|
    && (forall j :: 0 <= j < |files| ==> Keeps(fs, files[j], opens[j]))
    && forall j, l :: 0 <= j < |files| && 0 <= l < |files| && j != l && files[j] != null && files[l] != null ==>
         files[j] != files[l] && files[j].buf != files[l].buf
  }

  /** Between two jobs. */
  ghost predicate Standing(fs: FatFs, starts: seq<nat>, files: seq<Fil?>, st: State)
    reads fs, fs.win, set f | f in files && f != null :: f, set f | f in files && f != null :: f.buf
  {
    && fs.Valid() && st.v.fat == fs.fat && st.v.snap == fs.Now() && Mirrors(fs, files, st.opens)
    && Sys(fs.g, starts, st.v, st.opens) && Shows(fs.g, st.v, st.opens, st.w)
  }

  lemma StandingIs(fs: FatFs, starts: seq<nat>, files: seq<Fil?>, st: State)
    ensures Standing(fs, starts, files, st) <==>
            && fs.Valid() && st.v.fat == fs.fat && st.v.snap == fs.Now() && Mirrors(fs, files, st.opens)
            && Sys(fs.g, starts, st.v, st.opens) && Shows(fs.g, st.v, st.opens, st.w)
  {
    hide FatFs.Valid, FatFs.Now, Mirrors, Sys, Shows;
  }

  lemma MirrorsIs(fs: FatFs, files: seq<Fil?>, opens: seq<OpenFile>)
    ensures Mirrors(fs, files, opens) <==>
            && |files| == |opens|
            && (forall j :: 0 <= j < |files| ==> Keeps(fs, files[j], opens[j]))
            && forall j, l :: 0 <= j < |files| && 0 <= l < |files| && j != l && files[j] != null && files[l] != null ==>
                 files[j] != files[l] && files[j].buf != files[l].buf
  {
    hide Keeps;
  }

  lemma KeepsIs(fs: FatFs, f: Fil?, x: OpenFile)
    requires Keeps(fs, f, x)
    ensures f == null <==> x.Shut?
    ensures f != null ==> f.fs == fs && f.buf != fs.win && f.buf.Length == 512 && f.err == FR_OK && f.dirOff + 32 <= 512
  {
  }

  /** No file object uses the window as its buffer. */
  lemma BuffersApart(fs: FatFs, files: seq<Fil?>, opens: seq<OpenFile>)
    requires Mirrors(fs, files, opens)
    ensures |files| == |opens| && forall l :: 0 <= l < |files| && files[l] != null ==> files[l].buf != fs.win
  {
    hide *;
    MirrorsIs(fs, files, opens);
    forall l | 0 <= l < |files| && files[l] != null ensures files[l].buf != fs.win { KeepsIs(fs, files[l], opens[l]); }
  }

  lemma KeepsRefreshed(fs: FatFs, f: Fil?, x: OpenFile, fat: seq<nat>, b: Snapshot)
    requires Keeps(fs, f, x)
    ensures Keeps(fs, f, Refreshed(x, fat, b))
  {
  }

  lemma KeepsSeen(f: Fil, at: Owner)
    requires Steady(f)
    ensures Keeps(f.fs, f, Seen(f, at))
  {
    hide *;
    SteadyIs(f);
    f.OKIs();
    SeenIs(f, at);
    f.SIs();
    KeepsIntro(f.fs, f, Seen(f, at));
  }

  lemma KeepsIntro(fs: FatFs, f: Fil, x: OpenFile)
    requires x.OpenFile? && f.fs == fs && f.buf != fs.win && f.buf.Length == 512 && f.err == FR_OK
    requires f.dirOff + 32 <= 512
    requires x.canRead == f.canRead && x.canWrite == f.canWrite && x.written == f.written && x.sect == f.dirSect
    requires x.off == f.dirOff
    requires x.state == FState(x.state.fat, x.state.media, x.state.winsect, f.chain, f.buf[..], f.dsect, f.dirty,
                               f.sclust, f.clust, f.fptr, f.fsize)
    ensures Keeps(fs, f, x)
  {
  }

  lemma SeenKept(fs: FatFs, f: Fil, x: OpenFile)
    requires Keeps(fs, f, x) && x.state.fat == fs.fat && x.state.media == fs.media && x.state.winsect == fs.winsect
    ensures Seen(f, x.at) == x
  {
  }

  /** An open file object of the volume is ready for a call. */
  lemma FileReady(fs: FatFs, starts: seq<nat>, files: seq<Fil?>, st: State, j: nat)
    requires Standing(fs, starts, files, st) && j < |files| && files[j] != null
    ensures |files| == |st.opens| && st.opens[j].OpenFile? && files[j].fs == fs && Steady(files[j])
    ensures st.opens[j] == Seen(files[j], st.opens[j].at)
    ensures OpenOK(fs.g, st.v, st.opens[j])
  {
    hide *;
    StandingIs(fs, starts, files, st);
    MirrorsIs(fs, files, st.opens);
    KeepsIs(fs, files[j], st.opens[j]);
    SysIs(fs.g, starts, st.v, st.opens);
    OpenAt(fs.g, st.v, st.opens, j);
    OpenIs(fs.g, st.v, st.opens[j]);
    fs.NowIs();
    SeenKept(fs, files[j], st.opens[j]);
    SeenIs(files[j], st.opens[j].at);
    files[j].SIs();
    files[j].ReadyIntro();
    SteadyIntro(files[j]);
  }

  lemma ReplacedSame(tabs: seq<seq<Slot>>, o: Owner)
    ensures Replaced(tabs, o, SlotOf(tabs, o)) == tabs
  {
    if o.OfFile? && o.dir < |tabs| && o.slot < |tabs[o.dir]| {
      assert tabs[o.dir][o.slot := tabs[o.dir][o.slot]] == tabs[o.dir];
    }
  }

  /** The world after a call on file object `j`. */
  lemma CallWorld(g: Geometry, starts: seq<nat>, v: Vol, opens: seq<OpenFile>, w: M.World, j: nat, y: OpenFile,
                  b: Snapshot, call: M.Call, r: M.Reply)
    requires Sys(g, starts, v, opens) && Shows(g, v, opens, w) && j < |opens| && opens[j].OpenFile? && y.OpenFile?
    requires Called(g, opens[j], v.snap, y, b, call, r)
    ensures Core(g, y.state)
    ensures var v' := Vol(y.state.fat, b, v.own[y.at := y.state.chain], v.tabs);
            var opens' := RefreshedAll(opens, y.state.fat, b)[j := y];
            var w' := M.With(w, j, ModelOf(g, y.state), NoneFree(y.state.fat));
            && M.HandleIn(w, j) && Sys(g, starts, v', opens') && Shows(g, v', opens', w')
            && M.Does(w, M.On(j, call), r, w')
  {
    hide *;
    CalledIs(g, opens[j], v.snap, y, b, call, r);
    CallSys(g, starts, v, opens, j, y, b);
    HandleThere(g, starts, v, opens, w, j);
    ReplacedSame(v.tabs, y.at);
    var v' := Vol(y.state.fat, b, v.own[y.at := y.state.chain], v.tabs);
    FileWorld(g, starts, v, opens, w, j, y, Mine(v.fat, opens[j].state.chain), {}, v', SlotOf(v.tabs, y.at));
    OnDoes(w, j, call, r, ModelOf(g, y.state), NoneFree(y.state.fat));
  }

  lemma OnDoes(w: M.World, h: nat, call: M.Call, r: M.Reply, y: M.Model, full: bool)
    requires M.HandleIn(w, h) && M.FileDoes(M.ModelAt(w, h), w.open[h].canRead, w.open[h].canWrite, call, r, y, full)
    ensures M.Does(w, M.On(h, call), r, M.With(w, h, y, full))
  {
    WithIs(w, h, y, full);
    hide M.FileDoes;
  }

  /** A call on handle `j` that leaves the directories alone. */
  method Turn(fs: FatFs, ghost starts: seq<nat>, files: seq<Fil?>, j: nat, call: M.Call, ghost st: State)
    returns (r: M.Reply, ghost st': State)
    requires Standing(fs, starts, files, st) && j < |files| && files[j] != null && !call.Sync?
    requires call.Write? ==> |call.data| <= ALL_ONES
    modifies fs, fs.win, files[j], files[j].buf
    ensures r.Reply? && fs.faults >= old(fs.faults) && fs.Valid()
    ensures CutsHold(fs.g.fsType, old(fs.cuts)) ==> CutsHold(fs.g.fsType, fs.cuts)
    ensures r.res == FR_DISK_ERR ==> fs.faults > old(fs.faults)
    ensures r.res != FR_DISK_ERR ==> Standing(fs, starts, files, st') && M.Does(st.w, M.On(j, call), r, st'.w)
    ensures r.res != FR_DISK_ERR && Exact(old(fs.freeClust), old(fs.fat)) ==> Exact(fs.freeClust, fs.fat)
  {
    hide *;
    StandingIs(fs, starts, files, st);
    MirrorsIs(fs, files, st.opens);
    BuffersApart(fs, files, st.opens);
    FileReady(fs, starts, files, st, j);
    var f := files[j];
    ghost var x := st.opens[j];
    f.HeapFacts();
    r := Perform(f, call, x.at);
    f.HeapFacts();
    st' := st;
    if r.res != FR_DISK_ERR {
      ghost var y, b := Seen(f, x.at), fs.Now();
      SeenIs(f, x.at);
      f.SIs();
      CallWorld(fs.g, starts, st.v, st.opens, st.w, j, y, b, call, r);
      st' := State(Vol(fs.fat, b, st.v.own[y.at := y.state.chain], st.v.tabs),
                   RefreshedAll(st.opens, fs.fat, b)[j := y],
                   M.With(st.w, j, ModelOf(fs.g, y.state), NoneFree(fs.fat)));
      KeepsSeen(f, x.at);
      forall l | 0 <= l < |files| ensures Keeps(fs, files[l], st'.opens[l]) {
        if l != j { KeepsRefreshed(fs, files[l], st.opens[l], fs.fat, b); }
      }
      MirrorsIs(fs, files, st'.opens);
      StandingIs(fs, starts, files, st');
    }
  }

  // ---------- Synchronising and closing ----------

  /** The sector of the entry of an open file is in no cluster that the file has or may get. */
  lemma EntrySector(g: Geometry, starts: seq<nat>, v: Vol, opens: seq<OpenFile>, j: nat)
    requires Sys(g, starts, v, opens) && j < |opens| && opens[j].OpenFile?
    ensures DirEntryApart(g, opens[j].state, opens[j].sect)
  {
    hide *;
    var x := opens[j];
    SysIs(g, starts, v, opens);
    VolIs(g, v);
    OpenAt(g, v, opens, j);
    OpenIs(g, v, x);
    DirInRange(g, v.own, v.tabs, Busy(opens), x.at);
    TablesSize(g, starts, v);
    var k := x.at.dir;
    TableIn(g, starts, v, k);
    var ch := v.own[OfDir(k)];
    TableAtIs(g, v.fat, v.snap, starts[k], ch, v.tabs[k]);
    PlacedIs(g, ch, x.at.slot, x.sect, x.off);
    TableSector(g, v.fat, starts[k], ch, x.at.slot / 16);
    HeldAt(v.fat, v.own, OfDir(k));
    Apart(v.fat, v.own, OfDir(k), x.at);
    NoneIs(ch, x.state.chain);
    forall c | 2 <= c < |v.fat| && (c in x.state.chain || v.fat[c] == 0) ensures !InCluster(g, c, x.sect) {
      TableApart(g, v.fat, starts[k], ch, c, x.sect);
    }
    EntryApartIntro(g, x.state, x.sect);
  }

  lemma NoneIs(a: seq<nat>, b: seq<nat>)
    requires NoneShared(a, b)
    ensures forall c :: c in b ==> c !in a
  {
  }

  lemma EntryApartIntro(g: Geometry, s: FState, sect: nat)
    requires sect < g.nsect && !g.InFat1(sect) && !g.InFat2(sect) && !g.IsFsInfo(sect)
    requires forall c :: 2 <= c < |s.fat| && (c in s.chain || s.fat[c] == 0) ==> !InCluster(g, c, sect)
    ensures DirEntryApart(g, s, sect)
  {
  }

  lemma SyncDoes(g: Geometry, s: FState, s': FState, canRead: bool, canWrite: bool, tm: dword, full: bool)
    requires Core(g, s) && Core(g, s') && Tidy(g, s) && BufferKept(g, s, s') && s'.fsize == s.fsize
    requires s'.fptr == s.fptr <= s.fsize
    requires File(g, s') == File(g, s)
    ensures M.FileDoes(ModelOf(g, s), canRead, canWrite, M.Sync(tm), M.Reply(FR_OK, [], 0), ModelOf(g, s'), full)
  {
    ModelFlags(g, s);
    ModelFlags(g, s');
    KeptFlags(g, s, s');
    hide Core, File, Matched, Good, Tidy, BufferKept, ModelOf;
  }

  /** What a synchronisation of file object `j` makes of the volume: nothing, or the file's entry is
      brought up to date. */
  ghost function SyncedVol(v: Vol, x: OpenFile, y: OpenFile, b: Snapshot, tm: dword): Vol
    requires x.OpenFile? && y.OpenFile? && y.state.fsize < 0x1_0000_0000
  {
    if !x.written then v
    else Vol(y.state.fat, b, v.own[y.at := y.state.chain],
             Replaced(v.tabs, y.at, UpdatedEntry(SlotOf(v.tabs, y.at), y.state.fsize, y.state.sclust, tm)))
  }

  lemma SyncedVolIs(v: Vol, x: OpenFile, y: OpenFile, b: Snapshot, tm: dword)
    requires x.OpenFile? && y.OpenFile? && y.state.fsize < 0x1_0000_0000
    ensures SyncedVol(v, x, y, b, tm) ==
            if !x.written then v
            else Vol(y.state.fat, b, v.own[y.at := y.state.chain],
                     Replaced(v.tabs, y.at, UpdatedEntry(SlotOf(v.tabs, y.at), y.state.fsize, y.state.sclust, tm)))
  {
    hide UpdatedEntry, SlotOf, Replaced;
  }

  /** The world after it. */
  lemma SyncWorld(g: Geometry, starts: seq<nat>, v: Vol, opens: seq<OpenFile>, w: M.World, j: nat, y: OpenFile,
                  b: Snapshot, tm: dword)
    requires Sys(g, starts, v, opens) && Shows(g, v, opens, w) && j < |opens| && opens[j].OpenFile? && y.OpenFile?
    requires Synced(g, opens[j], v.snap, y, b, tm) && y.state.fsize < 0x1_0000_0000
    requires !opens[j].written ==> y.state.fat == v.fat
    ensures Core(g, y.state) && M.HandleIn(w, j) && !y.written && !y.state.dirty && y.at == opens[j].at
    ensures var v', opens', w' := SyncedVol(v, opens[j], y, b, tm), RefreshedAll(opens, y.state.fat, b)[j := y],
                                  M.With(w, j, ModelOf(g, y.state), NoneFree(y.state.fat));
            && v'.fat == y.state.fat && v'.snap == b && Sys(g, starts, v', opens') && Shows(g, v', opens', w')
            && M.Does(w, M.On(j, M.Sync(tm)), M.Reply(FR_OK, [], 0), w')
            && ModelOf(g, y.state).data == M.ModelAt(w, j).data
  {
    hide *;
    var x := opens[j];
    SyncedIs(g, x, v.snap, y, b, tm);
    SyncedVolIs(v, x, y, b, tm);
    SysIs(g, starts, v, opens);
    VolIs(g, v);
    OpenAt(g, v, opens, j);
    OpenIs(g, v, x);
    FileOKIs(g, x.state);
    HandleThere(g, starts, v, opens, w, j);
    if x.written {
      SyncSys(g, starts, v, opens, j, y, b, tm);
      StartSmall(g, y.state);
      UpdatedSlot(g, SlotOf(v.tabs, y.at), y.state.fsize, y.state.sclust, tm);
      var e: Slot := UpdatedEntry(SlotOf(v.tabs, y.at), y.state.fsize, y.state.sclust, tm);
      var v' := SyncedVol(v, x, y, b, tm);
      FileWorld(g, starts, v, opens, w, j, y, Mine(v.fat, x.state.chain), {y.sect}, v', e);
    } else {
      KeptSame(g, x.state, y.state);
      AllSame(g, starts, v, opens);
      ShowsIs(g, v, opens, w);
      WithSame(w, j, ModelOf(g, y.state));
      assert RefreshedAll(opens, y.state.fat, b)[j := y] == opens;
    }
    ModelOfIs(g, x.state);
    ModelOfIs(g, y.state);
    SyncDoes(g, x.state, y.state, x.canRead, x.canWrite, tm, NoneFree(y.state.fat));
    OnDoes(w, j, M.Sync(tm), M.Reply(FR_OK, [], 0), ModelOf(g, y.state), NoneFree(y.state.fat));
  }

  /** Nothing has changed. */
  lemma AllSame(g: Geometry, starts: seq<nat>, v: Vol, opens: seq<OpenFile>)
    requires Sys(g, starts, v, opens)
    ensures RefreshedAll(opens, v.fat, v.snap) == opens
  {
    SysIs(g, starts, v, opens);
    hide Sys, VolOK, TablesOK, EntriesOK, OpensOK;
    forall j | 0 <= j < |opens| ensures Refreshed(opens[j], v.fat, v.snap) == opens[j] {
      if opens[j].OpenFile? {
        OpenAt(g, v, opens, j);
        OpenIs(g, v, opens[j]);
      }
    }
  }

  lemma WithSame(w: M.World, h: nat, y: M.Model)
    requires M.HandleIn(w, h) && y == M.ModelAt(w, h)
    ensures M.With(w, h, y, w.full) == w
  {
    WithIs(w, h, y, w.full);
    HandleInIs(w, h);
    HandleInIntro(w, h);
    var hd := w.open[h];
    assert w.dirs[hd.dir][hd.name := M.Plain(y.data, w.dirs[hd.dir][hd.name].readOnly)] == w.dirs[hd.dir];
  }

  /** A synchronisation through handle `j`. */
  method TurnSync(fs: FatFs, ghost starts: seq<nat>, files: seq<Fil?>, j: nat, tm: dword, ghost st: State)
    returns (res: FResult, ghost st': State)
    requires Standing(fs, starts, files, st) && j < |files| && files[j] != null
    modifies fs, fs.win, files[j], files[j].buf
    ensures fs.faults >= old(fs.faults) && fs.Valid()
    ensures CutsHold(fs.g.fsType, old(fs.cuts)) ==> CutsHold(fs.g.fsType, fs.cuts)
    ensures res == FR_OK || (res == FR_DISK_ERR && fs.faults > old(fs.faults))
    ensures res == FR_OK ==>
              Standing(fs, starts, files, st') && M.Does(st.w, M.On(j, M.Sync(tm)), M.Reply(FR_OK, [], 0), st'.w)
    ensures res == FR_OK ==>
              j < |st'.opens| && st'.opens[j].OpenFile? && !st'.opens[j].written && !st'.opens[j].state.dirty
    ensures res == FR_OK ==> SameFiles(st.w, st'.w, j)
    ensures res == FR_OK && Exact(old(fs.freeClust), old(fs.fat)) ==> Exact(fs.freeClust, fs.fat)
  {
    hide *;
    StandingIs(fs, starts, files, st);
    MirrorsIs(fs, files, st.opens);
    BuffersApart(fs, files, st.opens);
    FileReady(fs, starts, files, st, j);
    EntrySector(fs.g, starts, st.v, st.opens, j);
    var f := files[j];
    ghost var x := st.opens[j];
    SeenIs(f, x.at);
    f.HeapFacts();
    res := DoSync(f, tm, x.at);
    f.HeapFacts();
    st' := st;
    if res == FR_OK {
      ghost var y, b := Seen(f, x.at), fs.Now();
      SeenIs(f, x.at);
      f.SIs();
      SteadyIs(f);
      AllOnesIs();
      SyncedFat(fs.g, x, st.v.snap, y, b, tm);
      OpenIs(fs.g, st.v, x);
      SyncWorld(fs.g, starts, st.v, st.opens, st.w, j, y, b, tm);
      SameFilesIntro(st.w, j, ModelOf(fs.g, y.state), NoneFree(fs.fat));
      st' := State(SyncedVol(st.v, x, y, b, tm), RefreshedAll(st.opens, fs.fat, b)[j := y],
                   M.With(st.w, j, ModelOf(fs.g, y.state), NoneFree(fs.fat)));
      KeepsSeen(f, x.at);
      forall l | 0 <= l < |files| ensures Keeps(fs, files[l], st'.opens[l]) {
        if l != j { KeepsRefreshed(fs, files[l], st.opens[l], fs.fat, b); }
      }
      MirrorsIs(fs, files, st'.opens);
      StandingIs(fs, starts, files, st');
    }
  }

  lemma SyncedFat(g: Geometry, x: OpenFile, a: Snapshot, y: OpenFile, b: Snapshot, tm: dword)
    requires x.OpenFile? && y.OpenFile? && Synced(g, x, a, y, b, tm)
    ensures y.state.fat == x.state.fat && y.at == x.at
  {
    hide FileOK, Tidy, Local, Core, File, BufferKept, EntryUpdated;
  }

  /** The files of the world are the same, and so are the handles but `j`. */
  ghost predicate SameFiles(w: M.World, w': M.World, j: nat) {
    && w'.dirs == w.dirs && |w'.open| == |w.open| && j < |w.open| && w.open[j].Open?
    && forall l :: 0 <= l < |w.open| && l != j ==> w'.open[l] == w.open[l]
  }

  lemma SameFilesIntro(w: M.World, j: nat, y: M.Model, full: bool)
    requires M.HandleIn(w, j) && y.data == M.ModelAt(w, j).data
    ensures SameFiles(w, M.With(w, j, y, full), j)
  {
    WithIs(w, j, y, full);
    HandleInIs(w, j);
    HandleInIntro(w, j);
    var hd := w.open[j];
    assert w.dirs[hd.dir][hd.name := M.Plain(y.data, w.dirs[hd.dir][hd.name].readOnly)] == w.dirs[hd.dir];
  }

  lemma CloseDoes(w: M.World, w1: M.World, j: nat, tm: dword)
    requires SameFiles(w, w1, j)
    ensures M.Does(w, M.Close(j, tm), M.Reply(FR_OK, [], 0), w1.(open := w1.open[j := M.Closed]))
  {
    assert w1.open[j := M.Closed] == w.open[j := M.Closed];
  }

  /** A close: the file object is synchronised and given up. */
  method TurnClose(fs: FatFs, ghost starts: seq<nat>, files: seq<Fil?>, j: nat, tm: dword, ghost st: State)
    returns (res: FResult, files': seq<Fil?>, ghost st': State)
    requires Standing(fs, starts, files, st) && j < |files| && files[j] != null
    modifies fs, fs.win, files[j], files[j].buf
    ensures fs.faults >= old(fs.faults) && fs.Valid()
    ensures CutsHold(fs.g.fsType, old(fs.cuts)) ==> CutsHold(fs.g.fsType, fs.cuts)
    ensures res == FR_OK || (res == FR_DISK_ERR && fs.faults > old(fs.faults))
    ensures files' == if res == FR_OK then files[j := null] else files
    ensures res == FR_OK ==>
              Standing(fs, starts, files', st') && M.Does(st.w, M.Close(j, tm), M.Reply(FR_OK, [], 0), st'.w)
    ensures res == FR_OK && Exact(old(fs.freeClust), old(fs.fat)) ==> Exact(fs.freeClust, fs.fat)
  {
    hide *;
    ghost var st1;
    files' := files;
    res, st1 := TurnSync(fs, starts, files, j, tm, st);
    st' := st1;
    if res == FR_OK {
      StandingIs(fs, starts, files, st1);
      MirrorsIs(fs, files, st1.opens);
      ShutWorld(fs.g, starts, st1.v, st1.opens, st1.w, j);
      files' := files[j := null];
      st' := State(st1.v, st1.opens[j := Shut], st1.w.(open := st1.w.open[j := M.Closed]));
      CloseDoes(st.w, st1.w, j, tm);
      KeepsNull(fs);
      MirrorsIs(fs, files', st'.opens);
      StandingIs(fs, starts, files', st');
    }
  }

  lemma KeepsNull(fs: FatFs)
    ensures Keeps(fs, null, Shut)
  {
  }

  // ---------- Opening ----------

  /** The chains of the files in directory `k`, by slot. */
  ghost function ChainsIn(own: map<Owner, seq<nat>>, slots: seq<Slot>, k: nat): map<nat, seq<nat>> {
    map i: nat | i < |slots| && OfFile(k, i) in own :: own[OfFile(k, i)]
  }

  /** A name that no open file has is a file with a chain of its own, if it is one. */
  lemma ChainedHere(g: Geometry, starts: seq<nat>, v: Vol, opens: seq<OpenFile>, w: M.World, k: nat, name: seq<byte>)
    requires Sys(g, starts, v, opens) && Shows(g, v, opens, w) && k < |starts| && !M.InUse(w, k, name)
    ensures k < |v.tabs| && OfDir(k) in v.own
    ensures Chained(g, v.fat, v.own[OfDir(k)], v.tabs[k], name, ChainsIn(v.own, v.tabs[k], k))
    ensures forall i: nat ::
              i < |v.tabs[k]| && Live(v.tabs[k][i]) && !FatOpen.Folder(v.tabs[k][i]) && Name(v.tabs[k][i]) == name ==>
                OfFile(k, i) in v.own && OfFile(k, i) !in Busy(opens)
  {
    hide *;
    SysIs(g, starts, v, opens);
    VolIs(g, v);
    ShowsIs(g, v, opens, w);
    TablesSize(g, starts, v);
    TableIn(g, starts, v, k);
    var slots, chains := v.tabs[k], ChainsIn(v.own, v.tabs[k], k);
    forall i: nat | i < |slots| && Live(slots[i]) && !FatOpen.Folder(slots[i]) && Name(slots[i]) == name
      ensures OfFile(k, i) in v.own && OfFile(k, i) !in Busy(opens)
      ensures i in chains && Fits(g, slots[i], chains[i]) && Starts(v.fat, ClusterIn(g, slots[i]), chains[i])
      ensures NoneShared(v.own[OfDir(k)], chains[i])
    {
      var o := OfFile(k, i);
      DormantFile(g, v.own, v.tabs, Busy(opens), o, slots[i]);
      NotInUse(g, starts, v, opens, w, k, i, name);
      DirInRange(g, v.own, v.tabs, Busy(opens), o);
      ChainsInIs(v.own, slots, k, i);
      HeldAt(v.fat, v.own, o);
      Apart(v.fat, v.own, OfDir(k), o);
      FitsIs(g, slots[i], v.own[o]);
      StartsIntro(v.fat, ClusterIn(g, slots[i]), v.own[o]);
    }
    ChainedIntro(g, v.fat, v.own[OfDir(k)], slots, name, chains);
  }

  lemma ChainsInIs(own: map<Owner, seq<nat>>, slots: seq<Slot>, k: nat, i: nat)
    requires i < |slots| && OfFile(k, i) in own
    ensures i in ChainsIn(own, slots, k) && ChainsIn(own, slots, k)[i] == own[OfFile(k, i)]
  {
  }

  lemma StartsIntro(f: seq<nat>, head: nat, ch: seq<nat>)
    requires head == (if ch == [] then 0 else ch[0]) && (ch != [] ==> IsChain(f, ch) && Unlinked(f, ch[0]))
    ensures Starts(f, head, ch)
  {
  }

  lemma ChainedIntro(g: Geometry, fat: seq<nat>, dch: seq<nat>, slots: seq<Slot>, name: seq<byte>,
                     chains: map<nat, seq<nat>>)
    requires forall i: nat :: i < |slots| && Live(slots[i]) && !FatOpen.Folder(slots[i]) && Name(slots[i]) == name ==>
               && i in chains && Fits(g, slots[i], chains[i]) && Starts(fat, ClusterIn(g, slots[i]), chains[i])
               && NoneShared(dch, chains[i])
    ensures Chained(g, fat, dch, slots, name, chains)
  {
    hide Fits, Starts, ClusterIn, NoneShared, Live, Name, FatOpen.Folder;
  }

  /** No handle is open on the file if none has its name. */
  lemma NotInUse(g: Geometry, starts: seq<nat>, v: Vol, opens: seq<OpenFile>, w: M.World, k: nat, i: nat,
                 name: seq<byte>)
    requires Sys(g, starts, v, opens) && Shows(g, v, opens, w) && !M.InUse(w, k, name) && k < |v.tabs|
    requires i < |v.tabs[k]| && Name(v.tabs[k][i]) == name
    ensures OfFile(k, i) !in Busy(opens)
  {
    if OfFile(k, i) in Busy(opens) {
      var j :| 0 <= j < |opens| && opens[j].OpenFile? && opens[j].at == OfFile(k, i);
      HandleThere(g, starts, v, opens, w, j);
      hide *;
      HandleInIs(w, j);
      InUseIntro(w, k, name, j);
    }
  }

  lemma InUseIntro(w: M.World, k: nat, name: seq<byte>, h: nat)
    requires h < |w.open| && w.open[h].Open? && w.open[h].dir == k && w.open[h].name == name
    ensures M.InUse(w, k, name)
  {
  }

  /** The world answers as the directory does. */
  lemma VerdictIs(g: Geometry, starts: seq<nat>, v: Vol, opens: seq<OpenFile>, w: M.World, k: nat, name: seq<byte>,
                  mode: Mode)
    requires Sys(g, starts, v, opens) && Shows(g, v, opens, w) && k < |starts|
    ensures k < |v.tabs| && k < |w.dirs| && M.Verdict(w.dirs[k], name, mode) == Wanted(v.tabs[k], name, mode)
    ensures name in w.dirs[k] <==> name in Bindings(v.tabs[k])
    ensures name in w.dirs[k] ==> (w.dirs[k][name].Subdir? <==> FatOpen.Folder(Bindings(v.tabs[k])[name]))
    ensures name in w.dirs[k] && w.dirs[k][name].Plain? ==>
              (w.dirs[k][name].readOnly <==> ReadOnly(Bindings(v.tabs[k])[name]))
  {
    hide *;
    SysIs(g, starts, v, opens);
    ShowsIs(g, v, opens, w);
    TablesSize(g, starts, v);
    TableIn(g, starts, v, k);
    TableAtIs(g, v.fat, v.snap, starts[k], v.own[OfDir(k)], v.tabs[k]);
    DirShowsKeys(g, v, Busy(opens), k, w.dirs[k]);
    WantedIs(v.tabs[k], name, mode);
    VerdictOf(w.dirs[k], name, mode);
    if name in w.dirs[k] {
      var i := BoundAt(v.tabs[k], name);
      DirShowsAt(g, v, Busy(opens), k, w.dirs[k], i);
      ItemKind(g, v.snap.media, v.own, Busy(opens), OfFile(k, i), v.tabs[k][i], w.dirs[k][name]);
      DecideFolder(ReadOnly(v.tabs[k][i]), mode);
    }
  }

  lemma VerdictOf(dir: map<seq<byte>, M.Item>, name: seq<byte>, mode: Mode)
    ensures M.Verdict(dir, name, mode) ==
            if name !in dir then Decide(false, false, false, mode)
            else if dir[name].Subdir? then Decide(true, false, true, mode)
            else Decide(true, dir[name].readOnly, false, mode)
  {
    hide Decide;
  }

  lemma DecideFolder(readOnly: bool, mode: Mode)
    ensures Decide(true, readOnly, true, mode) == Decide(true, false, true, mode)
  {
  }

  lemma BoundAt(slots: seq<Slot>, name: seq<byte>) returns (i: nat)
    requires DirOK(slots) && name in Bindings(slots)
    ensures i < |slots| && Live(slots[i]) && Name(slots[i]) == name && Bindings(slots)[name] == slots[i]
  {
    BindingsIs(slots);
    hide Bindings, Live, Name;
    i :| i < |slots| && Live(slots[i]) && Name(slots[i]) == name;
  }

  lemma ItemKind(g: Geometry, media: seq<Sector>, own: map<Owner, seq<nat>>, busy: set<Owner>, o: Owner, e: Slot,
                 item: M.Item)
    requires ItemShows(g, media, own, busy, o, e, item)
    ensures item.Subdir? <==> FatOpen.Folder(e)
    ensures item.Plain? ==> item.readOnly == ReadOnly(e)
  {
    hide Dormant, EntrySize, FatOpen.Folder, ReadOnly;
  }

  /** What the directory work of an open makes of the volume. */
  ghost function StartVol(v: Vol, k: nat, q: Place, i: nat, how: Outcome): Vol
    requires k < |v.tabs|
  {
    var own := v.own[OfDir(k) := q.chain];
    Vol(q.fat, q.snap, if how.Created? || how.Emptied? then own[OfFile(k, i) := []] else own, v.tabs[k := q.slots])
  }

  /** And of the world. */
  ghost function StartDirs(w: M.World, k: nat, name: seq<byte>, how: Outcome, full: bool): M.World
    requires k < |w.dirs|
  {
    M.World(if how.Created? || how.Emptied? then w.dirs[k := w.dirs[k][name := M.Plain([], false)]] else w.dirs, w.open,
            full)
  }

  lemma DoneIs(g: Geometry, p: Place, q: Place, i: nat, fn: seq<byte>, tm: dword, how: Outcome)
    requires |fn| == 11 && Done(g, p, q, i, fn, tm, how)
    ensures how == Refused ==> DirStays(g, p.fat, p.chain, p.snap, q.fat, q.chain, q.snap) && Extended(p.slots, q.slots)
    ensures how == Kept ==> DirStays(g, p.fat, p.chain, p.snap, q.fat, q.chain, q.snap) && q.slots == p.slots
    ensures how == Created ==> DirStays(g, p.fat, p.chain, p.snap, q.fat, q.chain, q.snap)
                               && Placed(p.slots, q.slots, i, FatDirState.Emptied(NewEntry(fn), tm))
    ensures how.Emptied? ==>
              && q.chain == p.chain && q.snap.direct == p.snap.direct && FreedChain(p.fat, q.fat, how.chain)
              && i < |p.slots|
              && Live(p.slots[i]) && !FatOpen.Folder(p.slots[i])
              && Rewritten(p.slots, q.slots, i, FatDirState.Emptied(p.slots[i], tm)) && Clusters(g, p.chain)
              && Within(g, Mine(p.fat, p.chain) + ToSet(how.chain), Reach(g, p.chain), p.fat, p.snap, q.fat, q.snap)
  {
    hide Live, FatOpen.Folder, DirStays, Extended, Placed, FreedChain, Rewritten, Within, Mine, Reach;
    hide FatDirState.Emptied, NewEntry;
  }

  lemma NewSlot(g: Geometry, fat: seq<nat>, dch: seq<nat>, name: seq<byte>, tm: dword)
    requires Storable(name)
    ensures |name| == 11
    ensures var e := FatDirState.Emptied(NewEntry(name), tm);
            Regular(e) && Fits(g, e, []) && !ReadOnly(e) && EntrySize(e) == 0 && Name(e) == name
  {
    hide *;
    StorableIs(name);
    NewEntryIs(g, fat, dch, name);
    ClearSlot(g, NewEntry(name), tm);
  }

  lemma ClearSlot(g: Geometry, e: Slot, tm: dword)
    requires Live(e)
    ensures var r := FatDirState.Emptied(e, tm);
            Live(r) && Regular(r) && Fits(g, r, []) && !ReadOnly(r) && EntrySize(r) == 0 && Name(r) == Name(e)
  {
    hide *;
    EmptiedEntry(g, e, tm);
    EmptiedIs(g, e, tm);
    RegularIs(FatDirState.Emptied(e, tm));
    AttributesIs(FatDirState.Emptied(e, tm));
  }

  /** The volume and the world after the directory work of an open. */
  lemma StartWorld(g: Geometry, starts: seq<nat>, v: Vol, opens: seq<OpenFile>, w: M.World, k: nat, q: Place, i: nat,
                   name: seq<byte>, tm: dword, how: Outcome)
    requires Sys(g, starts, v, opens) && Shows(g, v, opens, w) && k < |starts| && k < |v.tabs| && k < |w.dirs|
    requires OfDir(k) in v.own && Storable(name)
    requires |name| == 11 && Done(g, Place(v.fat, v.own[OfDir(k)], v.snap, v.tabs[k]), q, i, name, tm, how)
    requires DirNow(g, starts, k, q.fat, q.snap, q.chain, q.slots) && (how == Created ==> name !in w.dirs[k])
    requires how.Emptied? ==>
              && i < |v.tabs[k]| && OfFile(k, i) in v.own && OfFile(k, i) !in Busy(opens)
              && how.chain == v.own[OfFile(k, i)]
                              && Live(v.tabs[k][i]) && Name(v.tabs[k][i]) == name
    ensures var v', opens' := StartVol(v, k, q, i, how), RefreshedAll(opens, q.fat, q.snap);
            && Sys(g, starts, v', opens') && Busy(opens') == Busy(opens)
            && Shows(g, v', opens', StartDirs(w, k, name, how, NoneFree(q.fat)))
    ensures how == Created ==> OfFile(k, i) !in Busy(opens)
  {
    hide *;
    var p := Place(v.fat, v.own[OfDir(k)], v.snap, v.tabs[k]);
    DoneIs(g, p, q, i, name, tm, how);
    StartVolIs(v, k, q, i, how);
    StartDirsIs(w, k, name, how, NoneFree(q.fat));
    match how {
      case Refused => SearchedWorld(g, starts, v, opens, w, k, q.fat, q.snap, q.chain, q.slots);
      case Kept =>
        ExtendedSame(v.tabs[k]);
        SearchedWorld(g, starts, v, opens, w, k, q.fat, q.snap, q.chain, q.slots);
      case Created =>
        NewSlot(g, v.fat, v.own[OfDir(k)], name, tm);
        CreatedWorld(g, starts, v, opens, w, k, q.fat, q.snap, q.chain, q.slots, i,
                     FatDirState.Emptied(NewEntry(name), tm));
      case Emptied(ch) =>
        var e := FatDirState.Emptied(v.tabs[k][i], tm);
        ClearSlot(g, v.tabs[k][i], tm);
        RewrittenIs(v.tabs[k], q.slots, i, e);
        EmptiedWorld(g, starts, v, opens, w, k, q.fat, q.snap, q.slots, i, e);
        ReplacedAll(v.tabs, k, i, e, q.slots);
    }
  }

  lemma StartVolIs(v: Vol, k: nat, q: Place, i: nat, how: Outcome)
    requires k < |v.tabs|
    ensures !how.Created? && !how.Emptied? ==>
              StartVol(v, k, q, i, how) == Vol(q.fat, q.snap, v.own[OfDir(k) := q.chain], v.tabs[k := q.slots])
    ensures how.Created? ==>
              && StartVol(v, k, q, i, how)
              == Vol(q.fat, q.snap, v.own[OfDir(k) := q.chain][OfFile(k, i) := []], v.tabs[k := q.slots])
    ensures how.Emptied? && OfDir(k) in v.own && q.chain == v.own[OfDir(k)] ==>
              StartVol(v, k, q, i, how) == Vol(q.fat, q.snap, v.own[OfFile(k, i) := []], v.tabs[k := q.slots])
  {
    if OfDir(k) in v.own && q.chain == v.own[OfDir(k)] { assert v.own[OfDir(k) := q.chain] == v.own; }
  }

  lemma StartDirsIs(w: M.World, k: nat, name: seq<byte>, how: Outcome, full: bool)
    requires k < |w.dirs|
    ensures StartDirs(w, k, name, how, full) ==
            M.World(if how.Created? || how.Emptied? then w.dirs[k := w.dirs[k][name := M.Plain([], false)]] else w.dirs,
                    w.open, full)
  {
  }

  lemma ReplacedAll(tabs: seq<seq<Slot>>, k: nat, i: nat, e: Slot, slots: seq<Slot>)
    requires k < |tabs| && i < |tabs[k]| && slots == tabs[k][i := e]
    ensures Replaced(tabs, OfFile(k, i), e) == tabs[k := slots]
  {
    ReplacedIs(tabs, OfFile(k, i), e);
    hide Replaced;
  }

  /** A directory object between two operations, as the volume has it. */
  lemma DirIsNow(dir: Dir, starts: seq<nat>, k: nat)
    requires dir.OK() && DirOK(dir.Table()) && k < |starts| && dir.sclust == starts[k]
    ensures DirNow(dir.fs.g, starts, k, dir.fs.fat, dir.fs.Now(), dir.chain, dir.Table()) && dir.fs.Valid()
    ensures PlaceNow(dir) == Place(dir.fs.fat, dir.chain, dir.fs.Now(), dir.Table())
  {
    hide *;
    dir.OKIs();
    dir.fs.NowIs();
    PlaceIs(dir);
    DirNowIntro(dir.fs.g, starts, k, dir.fs.fat, dir.fs.Now(), dir.chain, dir.Table());
  }

  lemma DirNowIntro(g: Geometry, starts: seq<nat>, k: nat, f: seq<nat>, b: Snapshot, ch: seq<nat>, slots: seq<Slot>)
    requires k < |starts| && TableOK(g, f, starts[k], ch) && Clusters(g, ch) && SectorsIn(b.view, TableSecs(g, ch))
    requires slots == Slots(b.view, TableSecs(g, ch)) && DirOK(slots)
    ensures DirNow(g, starts, k, f, b, ch, slots)
  {
  }

  /** A directory object for directory `k`. */
  method DirObject(fs: FatFs, starts: seq<nat>, k: nat, name: seq<byte>, ghost st: State) returns (dir: Dir)
    requires fs.Valid() && st.v.fat == fs.fat && st.v.snap == fs.Now() && k < |starts| && TablesOK(fs.g, starts, st.v)
    ensures k < |st.v.tabs| && OfDir(k) in st.v.own
    ensures fresh(dir) && dir.fs == fs && dir.fn == name && dir.sclust == starts[k] && dir.chain == st.v.own[OfDir(k)]
    ensures dir.OK()
    ensures dir.Table() == st.v.tabs[k] && DirOK(dir.Table())
    ensures PlaceNow(dir) == Place(st.v.fat, st.v.own[OfDir(k)], st.v.snap, st.v.tabs[k])
  {
    hide *;
    TableIn(fs.g, starts, st.v, k);
    TableAtIs(fs.g, st.v.fat, st.v.snap, starts[k], st.v.own[OfDir(k)], st.v.tabs[k]);
    dir := new Dir(fs, starts[k], name, st.v.own[OfDir(k)]);
    dir.OKIs();
    fs.NowIs();
    PlaceIs(dir);
  }

  /** The new file object is open on its entry. */
  lemma OpenedHere(fs: FatFs, dir: Dir, f: Fil, mode: Mode, changed: bool, ch: seq<nat>, k: nat, v: Vol)
    requires dir.fs == fs && dir.OK() && AtFile(dir) && f.fs == fs && f.OK() && Opens(dir, f, mode, changed, ch)
    requires OfFile(k, dir.index) in v.own && v.own[OfFile(k, dir.index)] == ch && OfDir(k) in v.own
    requires v.own[OfDir(k)] == dir.chain
    requires k < |v.tabs| && v.tabs[k] == dir.Table() && v.fat == fs.fat && v.snap == fs.Now()
    ensures var x := Seen(f, OfFile(k, dir.index));
            && OpenOK(fs.g, v, x) && !x.state.dirty && NamesIt(fs.g, SlotOf(v.tabs, x.at), x.state) && Steady(f)
            && HandleOf(fs.g, v.tabs, x) == M.Fresh(k, dir.fn, mode)
  {
    hide *;
    AtFileIs(dir);
    dir.AtIs(dir.index);
    dir.EntryIs();
    f.OKIs();
    fs.NowIs();
    f.SIs();
    var o, x := OfFile(k, dir.index), Seen(f, OfFile(k, dir.index));
    SeenIs(f, o);
    OpensIs(dir, f, mode, changed, ch);
    OpenedIs(fs.fat, fs.media, fs.winsect, ch, f.buf[..], ClusterIn(fs.g, dir.Entry()), EntrySize(dir.Entry()));
    SlotOfIs(v.tabs, o);
    NamesItIntro(fs.g, dir.Entry(), f.S());
    PlacedAtIntro(fs.g, dir.chain, dir.index, dir.sect, dir.off);
    CleanTidy(fs.g, f.S());
    SizeSmall(dir.Entry());
    OpenIs(fs.g, v, x);
    SteadyIntro(f);
    GoodMatched(fs.g, f.S(), f.fsize);
    HandleOfIs(fs.g, v.tabs, x);
    FreshIs(k, dir.fn, mode);
  }

  lemma OpensIs(dir: Dir, f: Fil, mode: Mode, changed: bool, ch: seq<nat>)
    requires Opens(dir, f, mode, changed, ch)
    ensures f.canRead == mode.read && f.canWrite == mode.write && f.err == FR_OK && f.written == changed && !f.dirty
    ensures f.dirSect == dir.sect && f.dirOff == dir.off && f.chain == ch && Good(dir.fs.g, f.S())
    ensures f.S() == Opened(dir.fs.fat, dir.fs.media, dir.fs.winsect, ch, f.buf[..], ClusterIn(dir.fs.g, dir.Entry()),
                            EntrySize(dir.Entry()))
  {
    hide Good, Opened, ClusterIn, EntrySize;
  }

  lemma PlacedAtIntro(g: Geometry, ch: seq<nat>, i: nat, sect: nat, off: nat)
    requires Clusters(g, ch) && i / 16 < |TableSecs(g, ch)| && sect == TableSecs(g, ch)[i / 16] && off == 32 * (i % 16)
    ensures PlacedAt(g, ch, i, sect, off)
  {
  }

  lemma CleanTidy(g: Geometry, s: FState)
    requires !s.dirty
    ensures Tidy(g, s)
  {
  }

  lemma SizeSmall(e: Slot)
    ensures EntrySize(e) <= ALL_ONES
  {
  }

  lemma FreshIs(k: nat, name: seq<byte>, mode: Mode)
    ensures M.Fresh(k, name, mode) == M.Open(k, name, 0, mode.read, mode.write, true, true)
  {
  }

  /** The new reply and world are those of the model. */
  lemma StartDoes(w: M.World, k: nat, name: seq<byte>, mode: Mode, tm: dword, res: FResult, how: Outcome, dir: Dir,
                  full: bool)
    requires k < |w.dirs| && !M.InUse(w, k, name) && Answered(M.Verdict(w.dirs[k], name, mode), res, how, dir)
    ensures var w1 := StartDirs(w, k, name, how, full);
            M.Does(w, M.Start(k, name, mode, tm), M.Reply(res, [], 0),
                   if res == FR_OK then w1.(open := w1.open + [M.Fresh(k, name, mode)]) else w1)
  {
    StartDirsIs(w, k, name, how, full);
    hide M.InUse, M.Verdict, NoRoom, StartDirs, M.Fresh;
  }

  /** Directory `k` has no free slot and cannot be stretched. */
  ghost predicate Crowded(v: Vol, k: nat) {
    && k < |v.tabs| && OfDir(k) in v.own && NoFreeSlot(v.tabs[k])
    && (NoneFree(v.fat) || v.own[OfDir(k)] == [] || |v.tabs[k]| >= 0x1_0000)
  }

  lemma CrowdedHere(v: Vol, k: nat, dir: Dir, answer: Answer, res: FResult, how: Outcome)
    requires Answered(answer, res, how, dir) && answer == Make && res == FR_DENIED
    requires k < |v.tabs| && OfDir(k) in v.own && v.tabs[k] == dir.Table() && v.own[OfDir(k)] == dir.chain
    requires v.fat == dir.fs.fat
    ensures Crowded(v, k)
  {
    AnsweredIs(answer, res, how, dir);
    hide NoFreeSlot, NoneFree, Dir.Table;
  }

  /** An open, by a caller who keeps to one open object per file. */
  method TurnStart(fs: FatFs, starts: seq<nat>, files: seq<Fil?>, k: nat, name: seq<byte>, mode: Mode, tm: dword,
                   ghost st: State)
    returns (res: FResult, files': seq<Fil?>, ghost st': State)
    requires Standing(fs, starts, files, st) && k < |starts| && Storable(name) && !M.InUse(st.w, k, name)
    modifies fs, fs.win
    ensures fs.faults >= old(fs.faults) && fs.Valid()
    ensures CutsHold(fs.g.fsType, old(fs.cuts)) ==> CutsHold(fs.g.fsType, fs.cuts)
    ensures res == FR_DISK_ERR ==> fs.faults > old(fs.faults)
    ensures res != FR_DISK_ERR ==>
              Standing(fs, starts, files', st') && M.Does(st.w, M.Start(k, name, mode, tm), M.Reply(res, [], 0), st'.w)
    ensures res != FR_DISK_ERR && Exact(old(fs.freeClust), old(fs.fat)) ==> Exact(fs.freeClust, fs.fat)
    ensures res == FR_DENIED && k < |st.w.dirs| && M.Verdict(st.w.dirs[k], name, mode) == Make ==> Crowded(st'.v, k)
    ensures files <= files' && |files'| <= |files| + 1 && (res == FR_OK <==> |files'| == |files| + 1)
    ensures res == FR_OK ==> files'[|files|] != null && fresh(files'[|files|]) && fresh(files'[|files|].buf)
  {
    hide *;
    StandingIs(fs, starts, files, st);
    MirrorsIs(fs, files, st.opens);
    BuffersApart(fs, files, st.opens);
    SysIs(fs.g, starts, st.v, st.opens);
    VerdictIs(fs.g, starts, st.v, st.opens, st.w, k, name, mode);
    ChainedHere(fs.g, starts, st.v, st.opens, st.w, k, name);
    StorableIs(name);
    ghost var chains := ChainsIn(st.v.own, st.v.tabs[k], k);
    var dir := DirObject(fs, starts, k, name, st);
    var buf := new byte[512];
    ghost var p := PlaceNow(dir);
    var f;
    ghost var how;
    res, f, how := FOpen(dir, mode, tm, buf, chains);
    files', st' := files, st;
    if res != FR_DISK_ERR {
      ghost var i, b := dir.index, fs.Now();
      ghost var v1 := StartVol(st.v, k, PlaceNow(dir), i, how);
      ghost var w1 := StartDirs(st.w, k, name, how, NoneFree(fs.fat));
      SettledIs(dir, p, tm, how);
      Started(fs, starts, st, k, p, dir, mode, tm, res, how, chains);
      forall l | 0 <= l < |files| ensures Keeps(fs, files[l], RefreshedAll(st.opens, fs.fat, b)[l]) {
        KeepsRefreshed(fs, files[l], st.opens[l], fs.fat, b);
      }
      st' := State(v1, RefreshedAll(st.opens, fs.fat, b), w1);
      if res == FR_DENIED && Wanted(st.v.tabs[k], name, mode) == Make { CrowdedHere(v1, k, dir, Make, res, how); }
      if f != null {
        files' := files + [f];
        ghost var x := Seen(f, OfFile(k, i));
        AttachedState(fs, starts, st', k, dir, f, mode, how != Kept, OpenChain(how, i, chains));
        st' := State(v1, st'.opens + [x], w1.(open := w1.open + [M.Fresh(k, name, mode)]));
      }
      MirrorsIs(fs, files', st'.opens);
      StandingIs(fs, starts, files', st');
    }
  }

  /** The directory work of an open, as volume, world and reply. */
  lemma Started(fs: FatFs, starts: seq<nat>, st: State, k: nat, p: Place, dir: Dir, mode: Mode, tm: dword, res: FResult,
                how: Outcome, chains: map<nat, seq<nat>>)
    requires Sys(fs.g, starts, st.v, st.opens) && Shows(fs.g, st.v, st.opens, st.w) && k < |starts| && k < |st.v.tabs|
    requires OfDir(k) in st.v.own
    requires !M.InUse(st.w, k, dir.fn) && chains == ChainsIn(st.v.own, st.v.tabs[k], k) && Storable(dir.fn)
    requires dir.fs == fs && dir.sclust == starts[k]
    requires p == Place(st.v.fat, st.v.own[OfDir(k)], st.v.snap, st.v.tabs[k]) && Settled(dir, p, tm, how)
    requires Answered(Wanted(st.v.tabs[k], dir.fn, mode), res, how, dir)
    requires res == FR_OK ==> AtFile(dir) && how != Refused
    requires res == FR_OK && how.Emptied? ==> dir.index in chains && how.chain == chains[dir.index]
    ensures k < |st.w.dirs|
    ensures var v' := StartVol(st.v, k, PlaceNow(dir), dir.index, how);
            var w' := StartDirs(st.w, k, dir.fn, how, NoneFree(fs.fat));
            && v'.fat == fs.fat && v'.snap == fs.Now() && |v'.tabs| == |st.v.tabs| && v'.tabs[k] == dir.Table()
            && OfDir(k) in v'.own && v'.own[OfDir(k)] == dir.chain
            && Sys(fs.g, starts, v', RefreshedAll(st.opens, fs.fat, fs.Now()))
            && Shows(fs.g, v', RefreshedAll(st.opens, fs.fat, fs.Now()), w')
            && (res == FR_OK ==>
                  && OfFile(k, dir.index) in v'.own
                  && v'.own[OfFile(k, dir.index)] == OpenChain(how, dir.index, chains))
            && (res == FR_OK ==> OfFile(k, dir.index) !in Busy(RefreshedAll(st.opens, fs.fat, fs.Now())))
            && M.Does(st.w, M.Start(k, dir.fn, mode, tm), M.Reply(res, [], 0),
                      if res == FR_OK then w'.(open := w'.open + [M.Fresh(k, dir.fn, mode)]) else w')
  {
    hide *;
    StorableIs(dir.fn);
    SettledIs(dir, p, tm, how);
    DirIsNow(dir, starts, k);
    var q, i := PlaceNow(dir), dir.index;
    VerdictIs(fs.g, starts, st.v, st.opens, st.w, k, dir.fn, mode);
    StartPlace(fs.g, starts, st, k, p, q, dir, mode, tm, res, how, chains);
    StartWorld(fs.g, starts, st.v, st.opens, st.w, k, q, i, dir.fn, tm, how);
    StartDoes(st.w, k, dir.fn, mode, tm, res, how, dir, NoneFree(fs.fat));
    StartVolNow(st.v, k, q, i, how);
  }

  /** The new file object joins the others. */
  lemma AttachedState(fs: FatFs, starts: seq<nat>, st: State, k: nat, dir: Dir, f: Fil, mode: Mode, changed: bool,
                      ch: seq<nat>)
    requires Sys(fs.g, starts, st.v, st.opens) && Shows(fs.g, st.v, st.opens, st.w) && k < |st.v.tabs|
    requires OfDir(k) in st.v.own
    requires dir.fs == fs && dir.OK() && AtFile(dir) && f.fs == fs && f.OK() && Opens(dir, f, mode, changed, ch)
    requires OfFile(k, dir.index) in st.v.own && st.v.own[OfFile(k, dir.index)] == ch
    requires OfFile(k, dir.index) !in Busy(st.opens)
    requires st.v.own[OfDir(k)] == dir.chain && st.v.tabs[k] == dir.Table() && st.v.fat == fs.fat
    requires st.v.snap == fs.Now()
    ensures var x := Seen(f, OfFile(k, dir.index));
            && Sys(fs.g, starts, st.v, st.opens + [x])
            && Shows(fs.g, st.v, st.opens + [x], st.w.(open := st.w.open + [M.Fresh(k, dir.fn, mode)]))
            && Keeps(fs, f, x)
  {
    hide *;
    var o := OfFile(k, dir.index);
    OpenedHere(fs, dir, f, mode, changed, ch, k, st.v);
    SeenIs(f, o);
    AttachedWorld(fs.g, starts, st.v, st.opens, st.w, Seen(f, o));
    KeepsSeen(f, o);
  }

  lemma StartVolNow(v: Vol, k: nat, q: Place, i: nat, how: Outcome)
    requires k < |v.tabs|
    ensures var v' := StartVol(v, k, q, i, how);
            && v'.fat == q.fat && v'.snap == q.snap && |v'.tabs| == |v.tabs| && v'.tabs[k] == q.slots
            && OfDir(k) in v'.own && v'.own[OfDir(k)] == q.chain
            && (how.Created? || how.Emptied? ==> OfFile(k, i) in v'.own && v'.own[OfFile(k, i)] == [])
            && (how.Kept? && OfFile(k, i) in v.own ==>
                  OfFile(k, i) in v'.own && v'.own[OfFile(k, i)] == v.own[OfFile(k, i)])
  {
  }

  /** Which file the directory work ended at. */
  lemma StartPlace(g: Geometry, starts: seq<nat>, st: State, k: nat, p: Place, q: Place, dir: Dir, mode: Mode,
                   tm: dword, res: FResult, how: Outcome, chains: map<nat, seq<nat>>)
    requires Sys(g, starts, st.v, st.opens) && Shows(g, st.v, st.opens, st.w) && k < |starts| && k < |st.v.tabs|
    requires k < |st.w.dirs| && OfDir(k) in st.v.own
    requires !M.InUse(st.w, k, dir.fn) && chains == ChainsIn(st.v.own, st.v.tabs[k], k) && Storable(dir.fn)
    requires |dir.fn| == 11
    requires p == Place(st.v.fat, st.v.own[OfDir(k)], st.v.snap, st.v.tabs[k]) && q == PlaceNow(dir) && DirOK(q.slots)
    requires Done(g, p, q, dir.index, dir.fn, tm, how) && Answered(Wanted(st.v.tabs[k], dir.fn, mode), res, how, dir)
    requires res == FR_OK ==> AtFile(dir) && how != Refused
    requires res == FR_OK && how.Emptied? ==> dir.index in chains && how.chain == chains[dir.index]
    ensures how == Created ==> dir.fn !in st.w.dirs[k]
    ensures how.Emptied? ==>
              dir.index < |st.v.tabs[k]| && OfFile(k, dir.index) in st.v.own && OfFile(k, dir.index) !in Busy(st.opens)
                             && how.chain == st.v.own[OfFile(k, dir.index)]
                             && Live(st.v.tabs[k][dir.index]) && Name(st.v.tabs[k][dir.index]) == dir.fn
    ensures res == FR_OK && how.Kept? ==>
              dir.index < |st.v.tabs[k]| && OfFile(k, dir.index) in st.v.own && OfFile(k, dir.index) !in Busy(st.opens)
                                          && OpenChain(how, dir.index, chains) == st.v.own[OfFile(k, dir.index)]
    ensures how.Created? || how.Emptied? ==> OpenChain(how, dir.index, chains) == []
  {
    hide *;
    VerdictIs(g, starts, st.v, st.opens, st.w, k, dir.fn, mode);
    ChainedHere(g, starts, st.v, st.opens, st.w, k, dir.fn);
    AnsweredIs(Wanted(st.v.tabs[k], dir.fn, mode), res, how, dir);
    WantedMake(st.v.tabs[k], dir.fn, mode);
    PlaceIs(dir);
    DoneIs(g, p, q, dir.index, dir.fn, tm, how);
    OpenChainIs(how, dir.index, chains);
    if res == FR_OK {
      AtFileIs(dir);
      if how.Kept? {
        ChainsInIs(st.v.own, st.v.tabs[k], k, dir.index);
      }
      if how.Emptied? {
        EmptiedWas(g, st.v.tabs[k], q.slots, dir.index, tm, dir.fn);
        ChainsOnly(st.v.own, st.v.tabs[k], k, dir.index);
      }
    }
  }

  lemma EmptiedWas(g: Geometry, slots: seq<Slot>, slots': seq<Slot>, i: nat, tm: dword, name: seq<byte>)
    requires i < |slots| && Rewritten(slots, slots', i, FatDirState.Emptied(slots[i], tm)) && i < |slots'|
    requires Name(slots'[i]) == name
    ensures Name(slots[i]) == name
  {
    hide *;
    RewrittenIs(slots, slots', i, FatDirState.Emptied(slots[i], tm));
    EmptiedIs(g, slots[i], tm);
  }

  lemma ChainsOnly(own: map<Owner, seq<nat>>, slots: seq<Slot>, k: nat, i: nat)
    requires i in ChainsIn(own, slots, k)
    ensures i < |slots| && OfFile(k, i) in own && ChainsIn(own, slots, k)[i] == own[OfFile(k, i)]
  {
  }

  // ---------- Removing ----------

  lemma RemoveDoes(w: M.World, k: nat, name: seq<byte>, res: FResult, folder: bool, full: bool)
    requires k < |w.dirs| && !M.InUse(w, k, name)
    requires folder ==> res == FR_OK && name in w.dirs[k] && w.dirs[k][name].Subdir?
    requires res == FR_OK || res == FR_NO_FILE || res == FR_DENIED
    requires res == FR_NO_FILE <==> name !in w.dirs[k]
    requires res == FR_DENIED && name in w.dirs[k] && w.dirs[k][name].Plain? ==> w.dirs[k][name].readOnly
    requires res == FR_OK && !folder ==> name in w.dirs[k] && w.dirs[k][name].Plain? && !w.dirs[k][name].readOnly
    ensures M.Does(w, M.Remove(k, name), if folder then M.Skipped else M.Reply(res, [], 0),
                   if res == FR_OK && !folder then M.World(w.dirs[k := w.dirs[k] - {name}], w.open, full)
                   else w.(full := full))
  {
    hide M.InUse;
  }

  /** A removal of a file that no handle is open on. */
  method TurnRemove(fs: FatFs, starts: seq<nat>, files: seq<Fil?>, k: nat, name: seq<byte>, ghost st: State)
    returns (r: M.Reply, ghost st': State)
    requires Standing(fs, starts, files, st) && k < |starts| && Storable(name) && !M.InUse(st.w, k, name)
    modifies fs, fs.win
    ensures fs.faults >= old(fs.faults) && fs.Valid()
    ensures CutsHold(fs.g.fsType, old(fs.cuts)) ==> CutsHold(fs.g.fsType, fs.cuts)
    ensures r.Reply? && r.res == FR_DISK_ERR ==> fs.faults > old(fs.faults)
    ensures !(r.Reply? && r.res == FR_DISK_ERR) ==>
              Standing(fs, starts, files, st') && M.Does(st.w, M.Remove(k, name), r, st'.w)
    ensures !(r.Reply? && r.res == FR_DISK_ERR) && Exact(old(fs.freeClust), old(fs.fat)) ==> Exact(fs.freeClust, fs.fat)
  {
    hide *;
    StandingIs(fs, starts, files, st);
    MirrorsIs(fs, files, st.opens);
    BuffersApart(fs, files, st.opens);
    SysIs(fs.g, starts, st.v, st.opens);
    VerdictIs(fs.g, starts, st.v, st.opens, st.w, k, name, Mode(true, false, false, false, false));
    var dir := DirObject(fs, starts, k, name, st);
    var res, folder := Unlink(dir);
    dir.OKIs();
    r := if folder then M.Skipped else M.Reply(res, [], 0);
    st' := st;
    if res != FR_DISK_ERR {
      ghost var b := fs.Now();
      RemovedFile(fs, starts, st, k, name, dir, res, folder);
      st' := RemovedState(fs, st, k, name, dir, res == FR_OK && !folder);
      forall l | 0 <= l < |files| ensures Keeps(fs, files[l], RefreshedAll(st.opens, fs.fat, b)[l]) {
        KeepsRefreshed(fs, files[l], st.opens[l], fs.fat, b);
      }
      RemovedStateIs(fs, st, k, name, dir, res == FR_OK && !folder);
      MirrorsIs(fs, files, st'.opens);
      StandingIs(fs, starts, files, st');
    }
  }

  /** What a removal makes of volume and world. */
  ghost function RemovedState(fs: FatFs, st: State, k: nat, name: seq<byte>, dir: Dir, gone: bool): State
    requires k < |st.v.tabs| && k < |st.w.dirs|
    reads fs, fs.win, dir, dir.fs, dir.fs.win
  {
    var own, o := st.v.own[OfDir(k) := dir.chain], OfFile(k, dir.index);
    State(Vol(fs.fat, fs.Now(), if gone then own - {o} else own, if gone then Replaced(st.v.tabs, o,
          Deleted()) else st.v.tabs[k := dir.Table()]),
          RefreshedAll(st.opens, fs.fat, fs.Now()),
          M.World(if gone then st.w.dirs[k := st.w.dirs[k] - {name}] else st.w.dirs, st.w.open, NoneFree(fs.fat)))
  }

  lemma RemovedStateIs(fs: FatFs, st: State, k: nat, name: seq<byte>, dir: Dir, gone: bool)
    requires k < |st.v.tabs| && k < |st.w.dirs|
    ensures var st', own, opens := RemovedState(fs, st, k, name, dir, gone), st.v.own[OfDir(k) :=
        dir.chain], RefreshedAll(st.opens, fs.fat, fs.Now());
            if gone then
              var o := OfFile(k, dir.index);
              st' == State(Vol(fs.fat, fs.Now(), own - {o}, Replaced(st.v.tabs, o, Deleted())), opens,
                           M.World(st.w.dirs[k := st.w.dirs[k] - {name}], st.w.open, NoneFree(fs.fat)))
            else
              st' == State(Vol(fs.fat, fs.Now(), own, st.v.tabs[k := dir.Table()]), opens,
                           M.World(st.w.dirs, st.w.open, NoneFree(fs.fat)))
  {
    hide Replaced, RefreshedAll, NoneFree, Deleted;
  }

  lemma StruckIs(slots: seq<Slot>, slots': seq<Slot>, k: nat, name: seq<byte>)
    requires Struck(slots, slots', k, name)
    ensures k < |slots| && Live(slots[k]) && Name(slots[k]) == name && slots' == slots[k := Deleted()]
    ensures DirOK(slots') && Bindings(slots') == Bindings(slots) - {name}
  {
    hide Live, Name, Bindings, Deleted, DirOK;
  }

  /** The volume and the world after a removal. */
  lemma RemovedFile(fs: FatFs, starts: seq<nat>, st: State, k: nat, name: seq<byte>, dir: Dir, res: FResult,
                    folder: bool)
    requires Sys(fs.g, starts, st.v, st.opens) && Shows(fs.g, st.v, st.opens, st.w) && k < |starts| && k < |st.v.tabs|
    requires k < |st.w.dirs| && OfDir(k) in st.v.own
    requires !M.InUse(st.w, k, name) && dir.fs == fs && dir.OK() && dir.sclust == starts[k]
    requires DirStays(fs.g, st.v.fat, st.v.own[OfDir(k)], st.v.snap, fs.fat, dir.chain, fs.Now())
    requires res == FR_OK || res == FR_NO_FILE || res == FR_DENIED
    requires res == FR_NO_FILE ==> name !in Bindings(st.v.tabs[k]) && dir.Table() == st.v.tabs[k]
    requires res == FR_DENIED ==>
              dir.Table() == st.v.tabs[k] && name in Bindings(st.v.tabs[k]) && ReadOnly(Bindings(st.v.tabs[k])[name])
    requires res == FR_OK && !folder ==>
              Struck(st.v.tabs[k], dir.Table(), dir.index, name) && dir.index < |st.v.tabs[k]|
                                         && !ReadOnly(st.v.tabs[k][dir.index])
                                         && !FatOpen.Folder(st.v.tabs[k][dir.index])
    requires folder ==>
              && res == FR_OK && dir.Table() == st.v.tabs[k] && name in Bindings(st.v.tabs[k])
              && FatOpen.Folder(Bindings(st.v.tabs[k])[name])
    ensures var st' := RemovedState(fs, st, k, name, dir, res == FR_OK && !folder);
            && st'.v.fat == fs.fat && st'.v.snap == fs.Now() && st'.opens == RefreshedAll(st.opens, fs.fat, fs.Now())
            && Sys(fs.g, starts, st'.v, st'.opens) && Shows(fs.g, st'.v, st'.opens, st'.w)
            && M.Does(st.w, M.Remove(k, name), if folder then M.Skipped else M.Reply(res, [], 0), st'.w)
  {
    hide *;
    VerdictIs(fs.g, starts, st.v, st.opens, st.w, k, name, Mode(true, false, false, false, false));
    SysIs(fs.g, starts, st.v, st.opens);
    TableIn(fs.g, starts, st.v, k);
    TableAtIs(fs.g, st.v.fat, st.v.snap, starts[k], st.v.own[OfDir(k)], st.v.tabs[k]);
    RemovedStateIs(fs, st, k, name, dir, res == FR_OK && !folder);
    var slots, i, b := st.v.tabs[k], dir.index, fs.Now();
    if res == FR_OK && !folder {
      StruckIs(slots, dir.Table(), i, name);
      DirOKParts(slots);
      Bound(slots, name, i);
      DirIsNow(dir, starts, k);
      NotInUse(fs.g, starts, st.v, st.opens, st.w, k, i, name);
      StruckWorld(fs.g, starts, st.v, st.opens, st.w, k, fs.fat, b, dir.chain, dir.Table(), i);
    } else {
      ExtendedSame(slots);
      DirIsNow(dir, starts, k);
      SearchedWorld(fs.g, starts, st.v, st.opens, st.w, k, fs.fat, b, dir.chain, dir.Table());
    }
    RemoveDoes(st.w, k, name, res, folder, NoneFree(fs.fat));
  }

  lemma DirOKParts(slots: seq<Slot>)
    requires DirOK(slots)
    ensures Unique(slots)
  {
    hide Unique, EndsAtZero, InReach;
  }

  // ---------- Runs ----------

  /** Where a handle was opened: what the caller remembers of it. */
  datatype Label = Label(dir: nat, name: seq<byte>)

  ghost predicate Labelled(labels: seq<Label>, w: M.World) {
    && |labels| == |w.open|
    && forall h :: 0 <= h < |w.open| && w.open[h].Open? ==> labels[h] == Label(w.open[h].dir, w.open[h].name)
  }

  /** Handles and file objects. */
  lemma HandlesAre(fs: FatFs, starts: seq<nat>, files: seq<Fil?>, st: State)
    requires Standing(fs, starts, files, st)
    ensures |files| == |st.w.open| == |st.opens| && |st.w.dirs| == |starts|
    ensures forall h :: 0 <= h < |files| ==> (files[h] != null <==> st.w.open[h].Open?)
  {
    hide *;
    StandingIs(fs, starts, files, st);
    MirrorsIs(fs, files, st.opens);
    ShowsIs(fs.g, st.v, st.opens, st.w);
    SysIs(fs.g, starts, st.v, st.opens);
    TablesSize(fs.g, starts, st.v);
    forall h | 0 <= h < |files| ensures files[h] != null <==> st.w.open[h].Open? {
      KeepsIs(fs, files[h], st.opens[h]);
      HandleShowsIs(fs.g, st.v.tabs, st.w.dirs, st.opens[h], st.w.open[h]);
      HandleOfIs(fs.g, st.v.tabs, st.opens[h]);
    }
  }

  /** Whether some handle is open on the file, as the caller knows. */
  method Asked(files: seq<Fil?>, labels: seq<Label>, k: nat, name: seq<byte>, ghost w: M.World) returns (busy: bool)
    requires |files| == |w.open| && Labelled(labels, w)
    requires forall h :: 0 <= h < |files| ==> (files[h] != null <==> w.open[h].Open?)
    ensures busy <==> M.InUse(w, k, name)
  {
    busy := false;
    for h := 0 to |files|
      invariant busy <==> exists i :: 0 <= i < h && w.open[i].Open? && w.open[i].dir == k && w.open[i].name == name
    {
      if files[h] != null && labels[h] == Label(k, name) { busy := true; }
    }
  }

  /** Jobs name directories of the volume and names that can be stored, and write no more than a count holds. */
  predicate JobsOK(starts: seq<nat>, jobs: seq<M.Job>) {
    forall i :: 0 <= i < |jobs| ==> JobOK(starts, jobs[i])
  }

  predicate JobOK(starts: seq<nat>, job: M.Job) {
    match job {
      case Start(k, name, mode, tm) => k < |starts| && Storable(name)
      case On(h, call) => call.Write? ==> |call.data| <= ALL_ONES
      case Close(h, tm) => true
      case Remove(k, name) => k < |starts| && Storable(name)
    }
  }

  /** The caller's labels stay right. */
  lemma LabelsKept(labels: seq<Label>, w: M.World, job: M.Job, r: M.Reply, w': M.World)
    requires Labelled(labels, w) && M.Does(w, job, r, w') && (job.Start? ==> |w'.open| == |w.open|)
    ensures Labelled(labels, w')
  {
    hide M.InUse, M.FileDoes;
  }

  lemma LabelsGrow(labels: seq<Label>, w: M.World, k: nat, name: seq<byte>, mode: Mode, tm: dword, r: M.Reply,
                   w': M.World)
    requires Labelled(labels, w) && M.Does(w, M.Start(k, name, mode, tm), r, w') && |w'.open| == |w.open| + 1
    ensures Labelled(labels + [Label(k, name)], w')
  {
    hide M.InUse, M.Verdict;
  }

  lemma InvalidDoes(w: M.World, h: nat, job: M.Job)
    requires !(h < |w.open| && w.open[h].Open?) && ((job.On? && job.handle == h) || (job.Close? && job.handle == h))
    ensures M.Does(w, job, M.Reply(FR_INVALID_OBJECT, [], 0), w)
  {
  }

  lemma SkippedDoes(w: M.World, k: nat, name: seq<byte>, job: M.Job)
    requires M.InUse(w, k, name) && k < |w.dirs|
    requires (job.Start? && job.dir == k && job.name == name) || (job.Remove? && job.dir == k && job.name == name)
    ensures M.Does(w, job, M.Skipped, w)
  {
    hide M.InUse;
  }

  /** Only an error of the drive ends a run. */
  predicate Broken(r: M.Reply) {
    r.Reply? && r.res == FR_DISK_ERR
  }

  lemma BrokenIs()
    ensures forall r :: Broken(r) <==> r.Reply? && r.res == FR_DISK_ERR
  {
  }

  lemma JobIs(starts: seq<nat>, job: M.Job)
    requires JobOK(starts, job)
    ensures (job.Start? || job.Remove?) ==> job.dir < |starts| && Storable(job.name)
    ensures job.On? && job.call.Write? ==> |job.call.data| <= ALL_ONES
  {
  }

  /** One job. */
  method Step(fs: FatFs, starts: seq<nat>, files: seq<Fil?>, labels: seq<Label>, job: M.Job, ghost st: State)
    returns (r: M.Reply, files': seq<Fil?>, labels': seq<Label>, ghost st': State)
    requires Standing(fs, starts, files, st) && Labelled(labels, st.w) && JobOK(starts, job)
    modifies fs, fs.win, set f | f in files && f != null :: f, set f | f in files && f != null :: f.buf
    ensures fs.faults >= old(fs.faults) && fs.Valid()
    ensures CutsHold(fs.g.fsType, old(fs.cuts)) ==> CutsHold(fs.g.fsType, fs.cuts)
    ensures Broken(r) ==> fs.faults > old(fs.faults)
    ensures !Broken(r) ==> Standing(fs, starts, files', st') && Labelled(labels', st'.w) && M.Does(st.w, job, r, st'.w)
    ensures !Broken(r) && Exact(old(fs.freeClust), old(fs.fat)) ==> Exact(fs.freeClust, fs.fat)
    ensures forall f :: f in files' && f != null ==> f in files || (fresh(f) && fresh(f.buf))
  {
    hide *;
    HandlesAre(fs, starts, files, st);
    BrokenIs();
    StandingIs(fs, starts, files, st);
    JobIs(starts, job);
    files', labels', st' := files, labels, st;
    match job {
      case Start(k, name, mode, tm) =>
        var busy := Asked(files, labels, k, name, st.w);
        if busy {
          r := M.Skipped;
          SkippedDoes(st.w, k, name, job);
        } else {
          var res;
          res, files', st' := TurnStart(fs, starts, files, k, name, mode, tm, st);
          r := M.Reply(res, [], 0);
          if res != FR_DISK_ERR {
            HandlesAre(fs, starts, files', st');
            if res == FR_OK {
              labels' := labels + [Label(k, name)];
              LabelsGrow(labels, st.w, k, name, mode, tm, r, st'.w);
            } else {
              LabelsKept(labels, st.w, job, r, st'.w);
            }
          }
        }
      case On(h, call) =>
        if h < |files| && files[h] != null {
          assert files[h] in files;
          if call.Sync? {
            var res;
            res, st' := TurnSync(fs, starts, files, h, call.tm, st);
            r := M.Reply(res, [], 0);
          } else {
            r, st' := Turn(fs, starts, files, h, call, st);
          }
          if !Broken(r) { LabelsKept(labels, st.w, job, r, st'.w); }
        } else {
          r := M.Reply(FR_INVALID_OBJECT, [], 0);
          InvalidDoes(st.w, h, job);
        }
      case Close(h, tm) =>
        if h < |files| && files[h] != null {
          assert files[h] in files;
          var res;
          res, files', st' := TurnClose(fs, starts, files, h, tm, st);
          r := M.Reply(res, [], 0);
          if !Broken(r) { LabelsKept(labels, st.w, job, r, st'.w); }
        } else {
          r := M.Reply(FR_INVALID_OBJECT, [], 0);
          InvalidDoes(st.w, h, job);
        }
      case Remove(k, name) =>
        var busy := Asked(files, labels, k, name, st.w);
        if busy {
          r := M.Skipped;
          SkippedDoes(st.w, k, name, job);
        } else {
          r, st' := TurnRemove(fs, starts, files, k, name, st);
          if !Broken(r) { LabelsKept(labels, st.w, job, r, st'.w); }
        }
    }
  }


  lemma JobAt(starts: seq<nat>, jobs: seq<M.Job>, i: nat)
    requires JobsOK(starts, jobs) && i < |jobs|
    ensures JobOK(starts, jobs[i])
  {
  }

  lemma NothingOpen(fs: FatFs, starts: seq<nat>, st: State)
    requires Standing(fs, starts, [], st)
    ensures Labelled([], st.w) && M.AllGood(st.w)
  {
    HandlesAre(fs, starts, [], st);
    hide Standing;
  }

  lemma AllStaysGood(jobs: seq<M.Job>, replies: seq<M.Reply>, trace: seq<M.World>)
    requires M.Follows(jobs, replies, trace) && M.AllGood(trace[0])
    ensures M.CleanCuts(jobs, trace) ==> forall k :: 0 <= k < |trace| ==> M.AllGood(trace[k])
  {
    hide M.Follows, M.CleanCuts, M.AllGood;
    if M.CleanCuts(jobs, trace) {
      forall k | 0 <= k < |trace| ensures M.AllGood(trace[k]) { M.StaysGood(jobs, replies, trace, k); }
    }
  }

  /** Any run of jobs on a volume, until the drive fails: each does what the model says, the chains of all
      files and directories stay whole and apart, the free count stays right and no moment of the run, cut
      off there, leaves a link to a free cluster. Where truncations are clean, every file is a plain byte
      string throughout. */
  method Run(fs: FatFs, starts: seq<nat>, jobs: seq<M.Job>, ghost st0: State)
    returns (replies: seq<M.Reply>, ok: bool, files: seq<Fil?>, ghost st: State, ghost trace: seq<M.World>)
    requires Standing(fs, starts, [], st0) && JobsOK(starts, jobs)
    modifies fs, fs.win
    ensures fs.Valid() && M.Follows(jobs, replies, trace) && trace[0] == st0.w
    ensures if ok then |replies| == |jobs| else fs.faults > old(fs.faults)
    ensures ok ==> Standing(fs, starts, files, st) && st.w == trace[|jobs|]
    ensures ok && Exact(old(fs.freeClust), old(fs.fat)) ==> Exact(fs.freeClust, fs.fat)
    ensures CutsHold(fs.g.fsType, old(fs.cuts)) ==> CutsHold(fs.g.fsType, fs.cuts)
    ensures M.CleanCuts(jobs, trace) ==> forall k :: 0 <= k < |trace| ==> M.AllGood(trace[k])
  {
    hide *;
    StandingIs(fs, starts, [], st0);
    NothingOpen(fs, starts, st0);
    M.FollowsStart(jobs, st0.w);
    var labels: seq<Label> := [];
    replies, ok, files, st, trace := [], true, [], st0, [st0.w];
    while ok && |replies| < |jobs|
      invariant fs.Valid() && M.Follows(jobs, replies, trace) && |trace| == |replies| + 1 && trace[0] == st0.w
      invariant |replies| <= |jobs|
      invariant ok ==> Standing(fs, starts, files, st) && Labelled(labels, st.w) && st.w == trace[|replies|]
      invariant if ok then fs.faults >= old(fs.faults) else fs.faults > old(fs.faults)
      invariant ok && Exact(old(fs.freeClust), old(fs.fat)) ==> Exact(fs.freeClust, fs.fat)
      invariant CutsHold(fs.g.fsType, old(fs.cuts)) ==> CutsHold(fs.g.fsType, fs.cuts)
      invariant forall f :: f in files && f != null ==> fresh(f) && fresh(f.buf)
      decreases ok, |jobs| - |replies|
    {
      JobAt(starts, jobs, |replies|);
      BrokenIs();
      var r;
      r, files, labels, st := Step(fs, starts, files, labels, jobs[|replies|], st);
      if Broken(r) {
        ok := false;
      } else {
        M.FollowsNext(jobs, replies, trace, r, st.w);
        replies, trace := replies + [r], trace + [st.w];
      }
    }
    AllStaysGood(jobs, replies, trace);
  }


  /** A freshly mounted volume whose FAT and directories pass the check is ready for any run. */
  lemma MountedStands(fs: FatFs, starts: seq<nat>)
    requires fs.Valid() && fs.View() == fs.media && fs.direct == {}
    requires (fs.winsect == ALL_ONES || fs.winsect < fs.g.fatbase)
    requires Readable(fs.g, fs.fat, fs.media, starts)
    requires Checked(fs.g, fs.fat, starts, TablesAt(fs.g, fs.fat, fs.media, starts))
    ensures Standing(fs, starts, [], State(VolAt(fs.g, fs.fat, fs.media, fs.winsect, starts), [], WorldAt(fs.g,
        fs.fat, fs.media, starts)))
  {
    hide *;
    AtMount(fs.g, fs.fat, fs.media, fs.winsect, starts);
    VolAtIs(fs.g, fs.fat, fs.media, fs.winsect, starts);
    fs.NowIs();
    var st := State(VolAt(fs.g, fs.fat, fs.media, fs.winsect, starts), [], WorldAt(fs.g, fs.fat, fs.media, starts));
    MirrorsIs(fs, [], []);
    StandingIs(fs, starts, [], st);
  }


  /** No sector of the first FAT is ever written without the window. */
  lemma FatJournalled(fs: FatFs)
    requires fs.Valid()
    ensures fs.durable <= |fs.log| && forall x :: x in fs.direct ==> !fs.g.InFat1(x)
  {
    hide CopiesEqual, Agree, Geometry.Fat;
  }

  lemma InFatIs(g: Geometry, x: nat)
    requires g.Valid() && g.InFat1(x)
    ensures x < g.nsect && !g.InFat2(x) && !g.IsFsInfo(x)
  {
  }

  /** The metadata on the drive, the first FAT and every sector of every directory, is what some prefix of
      the stores made of it. */
  lemma MetadataPrefix(fs: FatFs, starts: seq<nat>, files: seq<Fil?>, st: State, k: nat, x: nat)
    requires Standing(fs, starts, files, st) && k < |starts|
    ensures fs.g.Valid() && |fs.media| == fs.g.nsect && fs.durable <= |fs.log| && OfDir(k) in st.v.own
    ensures Clusters(fs.g, st.v.own[OfDir(k)])
    ensures fs.g.InFat1(x) || x in Reach(fs.g, st.v.own[OfDir(k)]) ==>
              var made := Replay(fs.base, fs.log[..fs.durable]); x < |fs.media| && x < |made| && fs.media[x] == made[x]
  {
    hide *;
    StandingIs(fs, starts, files, st);
    SysIs(fs.g, starts, st.v, st.opens);
    TableIn(fs.g, starts, st.v, k);
    fs.NowIs();
    fs.Facts();
    var ch := st.v.own[OfDir(k)];
    TableAtIs(fs.g, st.v.fat, st.v.snap, starts[k], ch, st.v.tabs[k]);
    DriveHoldsPrefix(fs);
    FatJournalled(fs);
    if x in Reach(fs.g, ch) {
      var q := ReachIndex(fs.g, ch, x);
      TableSector(fs.g, st.v.fat, starts[k], ch, q);
    } else if fs.g.InFat1(x) {
      InFatIs(fs.g, x);
    }
  }

  /** From mounting on: a volume that passes the check, and any jobs. */
  method MountedRun(g: Geometry, media: seq<Sector>, at: nat, lastClust: dword, freeClust: dword, fsiFlag: nat,
                    starts: seq<nat>, jobs: seq<M.Job>)
    returns (fs: FatFs, replies: seq<M.Reply>, ok: bool, ghost trace: seq<M.World>)
    requires g.Valid() && |media| == g.nsect && (at == ALL_ONES || (g.volbase <= at <= g.volbase + 1 && at < g.fatbase))
    requires Readable(g, g.Fat(media), media, starts)
    requires Checked(g, g.Fat(media), starts, TablesAt(g, g.Fat(media), media, starts))
    requires JobsOK(starts, jobs)
    ensures fs.g == g && fs.Valid() && M.Follows(jobs, replies, trace)
    ensures trace[0] == WorldAt(g, g.Fat(media), media, starts)
    ensures if ok then |replies| == |jobs| && HeapOK(fs.fat) else fs.faults > 0
    ensures ok && Exact(freeClust, g.Fat(media)) ==> Exact(fs.freeClust, fs.fat)
    ensures g.fsType != FAT12 ==> CutsHold(g.fsType, fs.cuts)
    ensures M.CleanCuts(jobs, trace) ==> forall k :: 0 <= k < |trace| ==> M.AllGood(trace[k])
  {
    hide *;
    ReadableIs(g, g.Fat(media), media, starts);
    fs := new FatFs(g, media, at, lastClust, freeClust, fsiFlag);
    MountedStands(fs, starts);
    CutsFirst(g.fsType, fs.fat);
    var files;
    ghost var st;
    replies, ok, files, st, trace :=
        Run(fs, starts, jobs, State(VolAt(g, fs.fat, media, at, starts), [], WorldAt(g, fs.fat, media, starts)));
    if ok {
      StandingIs(fs, starts, files, st);
      SysIs(g, starts, st.v, st.opens);
      VolIs(g, st.v);
    }
  }

  lemma CutsFirst(fsType: FsType, f: seq<nat>)
    requires HeapOK(f)
    ensures fsType != FAT12 ==> CutsHold(fsType, [f])
  {
  }

}
