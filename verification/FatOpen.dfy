/** Opening, creating and removing files by name in one directory. */
module FatOpen {
  import opened Bytes
  import opened FatEntry
  import opened FatVolume
  import opened FatHeap
  import opened FatChain
  import opened FatData
  import opened FatApart
  import opened FatDirState
  import opened FatDir
  import FatFileState
  import FatFile

  /** The access and creation flags of an open. */
  datatype Mode = Mode(read: bool, write: bool, createNew: bool, createAlways: bool, openAlways: bool) {
    predicate Creates() { createNew || createAlways || openAlways }
  }

  predicate ReadOnly(e: Slot) { e[11] % 2 == 1 }

  predicate Folder(e: Slot) { e[11] / 16 % 2 == 1 }

  /** What an open comes to: a refusal, the file as it is, the file emptied, or a new file. */
  datatype Answer = Refuse(res: FResult) | Reuse | Clear | Make

  function Decide(known: bool, readOnly: bool, folder: bool, mode: Mode): Answer {
    if mode.Creates() then
      if !known then Make
      else if readOnly || folder then Refuse(FR_DENIED)
      else if mode.createNew then Refuse(FR_EXIST)
      else if mode.createAlways then Clear else Reuse
    else if !known || folder then Refuse(FR_NO_FILE)
    else if mode.write && readOnly then Refuse(FR_DENIED)
    else Reuse
  }

  /** What the directory says about the name. */
  ghost function Wanted(slots: seq<Slot>, name: seq<byte>, mode: Mode): Answer {
    if name in Bindings(slots) then Decide(true, ReadOnly(Bindings(slots)[name]), Folder(Bindings(slots)[name]), mode)
    else Decide(false, false, false, mode)
  }

  /** The entry names the chain, and a size that the chain has room for. */
  ghost predicate Fits(g: Geometry, e: Slot, ch: seq<nat>) {
    && ClusterIn(g, e) == (if ch == [] then 0 else ch[0])
    && FatFileState.EntrySize(e) <= 512 * Times(|ch|, g.csize)
  }

  /** The chains of the regular files in the directory that have this name. */
  ghost predicate Chained(g: Geometry, fat: seq<nat>, dch: seq<nat>, slots: seq<Slot>, name: seq<byte>,
                          chains: map<nat, seq<nat>>) {
    forall i :: 0 <= i < |slots| && Live(slots[i]) && !Folder(slots[i]) && Name(slots[i]) == name ==>
      && i in chains && Fits(g, slots[i], chains[i]) && Starts(fat, ClusterIn(g, slots[i]), chains[i])
      && NoneShared(dch, chains[i])
  }

  lemma ChainedAt(g: Geometry, fat: seq<nat>, dch: seq<nat>, slots: seq<Slot>, name: seq<byte>,
                  chains: map<nat, seq<nat>>, i: nat)
    requires Chained(g, fat, dch, slots, name, chains) && i < |slots| && Live(slots[i]) && !Folder(slots[i])
    requires Name(slots[i]) == name
    ensures i in chains && Fits(g, slots[i], chains[i]) && Starts(fat, ClusterIn(g, slots[i]), chains[i])
    ensures NoneShared(dch, chains[i])
    ensures OtherChain(fat, dch, chains[i], ClusterIn(g, slots[i]))
  {
  }

  lemma StorableIs(name: seq<byte>)
    requires Storable(name)
    ensures |name| == 11
  {
  }

  lemma NewEntryIs(g: Geometry, fat: seq<nat>, dch: seq<nat>, name: seq<byte>)
    requires Storable(name)
    ensures Live(NewEntry(name)) && ClusterIn(g, NewEntry(name)) == 0 && OtherChain(fat, dch, [], 0)
  {
    NoChain(fat, dch);
    ZeroWord();
    hide OtherChain, StWord, LdWord, StDword, LdDword;
    assert NewEntry(name)[0] == name[0] && NewEntry(name)[26] == 0 && NewEntry(name)[27] == 0;
    assert NewEntry(name)[20] == 0 && NewEntry(name)[21] == 0 && NewEntry(name)[11] == 0;
  }

  lemma NoChain(fat: seq<nat>, dch: seq<nat>)
    ensures OtherChain(fat, dch, [], 0)
  {
  }

  /** Clearing an entry without clusters is a step of the directory alone. */
  lemma ClearedNothing(g: Geometry, f: seq<nat>, ch: seq<nat>, a: Snapshot, f': seq<nat>, b: Snapshot)
    requires Clusters(g, ch) && FreedChain(f, f', []) && b.direct == a.direct
    requires Within(g, Mine(f, ch) + ToSet([]), Reach(g, ch), f, a, f', b)
    ensures DirStays(g, f, ch, a, f', ch, b)
  {
    assert f' == f;
    assert Mine(f, ch) + ToSet([]) == Mine(f, ch);
  }

  lemma PlacedAgain(slots: seq<Slot>, slots1: seq<Slot>, slots2: seq<Slot>, k: nat, e: Slot, e': Slot)
    requires Placed(slots, slots1, k, e) && Rewritten(slots1, slots2, k, e')
    ensures Placed(slots, slots2, k, e')
  {
    hide Free;
  }

  lemma RewrittenIs(slots: seq<Slot>, slots': seq<Slot>, k: nat, e: Slot)
    requires Rewritten(slots, slots', k, e)
    ensures k < |slots| && slots' == slots[k := e] && Bindings(slots') == Bindings(slots)[Name(slots[k]) := e]
  {
  }

  lemma DecideIs(known: bool, readOnly: bool, folder: bool, mode: Mode)
    ensures Decide(known, readOnly, folder, mode) ==
            if mode.createNew || mode.createAlways || mode.openAlways then
              if !known then Make
              else if readOnly || folder then Refuse(FR_DENIED)
              else if mode.createNew then Refuse(FR_EXIST)
              else if mode.createAlways then Clear else Reuse
            else if !known || folder then Refuse(FR_NO_FILE)
            else if mode.write && readOnly then Refuse(FR_DENIED)
            else Reuse
  {
  }

  lemma WantedIs(slots: seq<Slot>, name: seq<byte>, mode: Mode)
    ensures name in Bindings(slots) ==>
              && Wanted(slots, name, mode)
              == Decide(true, ReadOnly(Bindings(slots)[name]), Folder(Bindings(slots)[name]), mode)
    ensures name !in Bindings(slots) ==> Wanted(slots, name, mode) == Decide(false, false, false, mode)
  {
  }

  lemma AttributesIs(e: Slot)
    ensures ReadOnly(e) <==> e[11] % 2 == 1
    ensures Folder(e) <==> e[11] / 16 % 2 == 1
  {
  }

  /** The current entry is in the window. */
  lemma InWindow(dir: Dir)
    requires dir.OK() && dir.At(dir.index) && dir.index < |dir.Table()| && dir.fs.winsect == dir.sect
    ensures dir.fs.win.Length == 512 && dir.off + 32 <= 512 && dir.fs.win[dir.off..dir.off + 32] == dir.Entry()
    ensures dir.Entry() == dir.Table()[dir.index]
    ensures Clusters(dir.fs.g, dir.chain) && dir.fs.winsect in Reach(dir.fs.g, dir.chain)
  {
    hide *;
    dir.OKIs();
    dir.AtIs(dir.index);
    dir.fs.Facts();
    dir.EntryIs();
    TableSector(dir.fs.g, dir.fs.fat, dir.sclust, dir.chain, dir.index / 16);
    SlotAtIs(dir.fs.View(), TableSecs(dir.fs.g, dir.chain), dir.index);
    ReachAt(dir.fs.g, dir.chain, dir.index / 16);
  }

  /** What the directory work of an open has done. */
  datatype Outcome = Refused | Kept | Created | Emptied(chain: seq<nat>)

  /** The directory is in one piece. */
  datatype Place = Place(fat: seq<nat>, chain: seq<nat>, snap: Snapshot, slots: seq<Slot>)

  ghost function PlaceNow(dir: Dir): Place
    reads dir, dir.fs, dir.fs.win
  {
    Place(dir.fs.fat, dir.chain, dir.fs.Now(), dir.Table())
  }

  ghost predicate Done(g: Geometry, p: Place, q: Place, i: nat, fn: seq<byte>, tm: dword, how: Outcome)
    requires |fn| == 11
  {
    match how {
      case Refused => DirStays(g, p.fat, p.chain, p.snap, q.fat, q.chain, q.snap) && Extended(p.slots, q.slots)
      case Kept => DirStays(g, p.fat, p.chain, p.snap, q.fat, q.chain, q.snap) && q.slots == p.slots
      case Created =>
        && DirStays(g, p.fat, p.chain, p.snap, q.fat, q.chain, q.snap)
        && Placed(p.slots, q.slots, i, FatDirState.Emptied(NewEntry(fn), tm))
      case Emptied(ch) =>
        && q.chain == p.chain && q.snap.direct == p.snap.direct && FreedChain(p.fat, q.fat, ch)
        && i < |p.slots| && Live(p.slots[i]) && !Folder(p.slots[i])
        && Rewritten(p.slots, q.slots, i, FatDirState.Emptied(p.slots[i], tm)) && Clusters(g, p.chain)
        && Within(g, Mine(p.fat, p.chain) + ToSet(ch), Reach(g, p.chain), p.fat, p.snap, q.fat, q.snap)
    }
  }

  /** Searching first makes no difference. */
  lemma DoneAfter(g: Geometry, p: Place, p1: Place, q: Place, i: nat, fn: seq<byte>, tm: dword, how: Outcome)
    requires g.Valid() && |p.snap.media| == g.nsect && |fn| == 11
    requires DirStays(g, p.fat, p.chain, p.snap, p1.fat, p1.chain, p1.snap) && p1.fat == p.fat && p1.chain == p.chain
    requires p1.slots == p.slots && (how.Emptied? ==> p1.snap.direct == p.snap.direct) && Done(g, p1, q, i, fn, tm, how)
    ensures Done(g, p, q, i, fn, tm, how)
  {
    hide Live, Folder, FatDirState.Emptied, NewEntry, DirStays, Within, Mine, Reach, FreedChain, Rewritten, Placed;
    hide Extended;
    if how.Emptied? {
      var m := Mine(p.fat, p.chain) + ToSet(how.chain);
      DirStaysIs(g, p.fat, p.chain, p.snap, p1.fat, p1.chain, p1.snap);
      WithinMore(g, Mine(p.fat, p.chain), m, Reach(g, p.chain), Reach(g, p.chain), p.fat, p.snap, p1.fat, p1.snap);
      WithinTrans(g, m, Reach(g, p.chain), p.fat, p.snap, p1.fat, p1.snap, q.fat, q.snap);
    } else {
      DirTrans(g, p.fat, p.chain, p.snap, p1.fat, p1.chain, p1.snap, q.fat, q.chain, q.snap);
    }
  }

  lemma DoneKept(g: Geometry, p: Place, q: Place, i: nat, fn: seq<byte>, tm: dword)
    requires |fn| == 11 && DirStays(g, p.fat, p.chain, p.snap, q.fat, q.chain, q.snap) && q.slots == p.slots
    ensures Done(g, p, q, i, fn, tm, Kept) && Done(g, p, q, i, fn, tm, Refused)
  {
    hide FatDirState.Emptied, NewEntry, DirStays;
  }

  lemma DoneRefused(g: Geometry, p: Place, q: Place, i: nat, fn: seq<byte>, tm: dword)
    requires |fn| == 11 && DirStays(g, p.fat, p.chain, p.snap, q.fat, q.chain, q.snap) && Extended(p.slots, q.slots)
    ensures Done(g, p, q, i, fn, tm, Refused)
  {
    hide FatDirState.Emptied, NewEntry, DirStays;
  }

  lemma DoneCreated(g: Geometry, p: Place, q: Place, i: nat, fn: seq<byte>, tm: dword)
    requires |fn| == 11 && DirStays(g, p.fat, p.chain, p.snap, q.fat, q.chain, q.snap)
    requires Placed(p.slots, q.slots, i, FatDirState.Emptied(NewEntry(fn), tm))
    ensures Done(g, p, q, i, fn, tm, Created)
  {
    hide FatDirState.Emptied, NewEntry, DirStays;
  }

  lemma DoneEmptied(g: Geometry, p: Place, q: Place, i: nat, fn: seq<byte>, tm: dword, ch: seq<nat>)
    requires i < |p.slots| && Live(p.slots[i]) && !Folder(p.slots[i])
    requires |fn| == 11 && q.chain == p.chain && q.snap.direct == p.snap.direct && FreedChain(p.fat, q.fat, ch)
    requires i < |p.slots|
    requires Rewritten(p.slots, q.slots, i, FatDirState.Emptied(p.slots[i], tm)) && Clusters(g, p.chain)
    requires Within(g, Mine(p.fat, p.chain) + ToSet(ch), Reach(g, p.chain), p.fat, p.snap, q.fat, q.snap)
    ensures Done(g, p, q, i, fn, tm, Emptied(ch))
  {
    hide Live, Folder, FatDirState.Emptied, NewEntry, Within, Mine, Reach;
  }

  lemma PlaceIs(dir: Dir)
    ensures PlaceNow(dir) == Place(dir.fs.fat, dir.chain, dir.fs.Now(), dir.Table())
  {
  }

  /** The directory is in order, and this is what has become of it. */
  ghost predicate Settled(dir: Dir, p: Place, tm: dword, how: Outcome)
    reads dir, dir.fs, dir.fs.win
  {
    && dir.OK() && DirOK(dir.Table()) && |dir.fn| == 11
    && Done(dir.fs.g, p, PlaceNow(dir), dir.index, dir.fn, tm, how)
  }

  lemma SettledIntro(dir: Dir, p: Place, tm: dword, how: Outcome)
    requires dir.OK() && DirOK(dir.Table()) && |dir.fn| == 11
    requires Done(dir.fs.g, p, PlaceNow(dir), dir.index, dir.fn, tm, how)
    ensures Settled(dir, p, tm, how)
  {
  }

  lemma SettledIs(dir: Dir, p: Place, tm: dword, how: Outcome)
    requires Settled(dir, p, tm, how)
    ensures dir.OK() && DirOK(dir.Table()) && |dir.fn| == 11
    ensures Done(dir.fs.g, p, PlaceNow(dir), dir.index, dir.fn, tm, how)
  {
  }

  /** Register the name, then clear the new entry. */
  method MakeNew(dir: Dir, tm: dword) returns (res: FResult)
    requires dir.OK() && DirOK(dir.Table()) && Storable(dir.fn) && dir.fn !in Bindings(dir.Table())
    modifies dir`index, dir`clust, dir`sect, dir`off, dir`chain, dir.fs`winsect, dir.fs`wflag, dir.fs`media
    modifies dir.fs`durable, dir.fs`direct
    modifies dir.fs`faults, dir.fs`log, dir.fs`fat, dir.fs`cuts, dir.fs`lastClust, dir.fs`freeClust, dir.fs`fsiFlag
    modifies dir.fs.win
    ensures dir.fs.Valid() && dir.fs.faults >= old(dir.fs.faults)
    ensures CutsHold(dir.fs.g.fsType, old(dir.fs.cuts)) ==> CutsHold(dir.fs.g.fsType, dir.fs.cuts)
    ensures res != FR_DISK_ERR && Exact(old(dir.fs.freeClust), old(dir.fs.fat)) ==> Exact(dir.fs.freeClust, dir.fs.fat)
    ensures res == FR_OK || res == FR_DENIED || (res == FR_DISK_ERR && dir.fs.faults > old(dir.fs.faults))
    ensures res == FR_OK ==> Settled(dir, old(PlaceNow(dir)), tm, Created) && AtFile(dir)
    ensures res == FR_DENIED ==> Settled(dir, old(PlaceNow(dir)), tm, Refused) && NoRoom(dir)
  {
    hide *;
    dir.OKIs();
    dir.fs.Facts();
    PlaceIs(dir);
    ghost var p := PlaceNow(dir);
    StorableIs(dir.fn);
    NewEntryIs(dir.fs.g, dir.fs.fat, dir.chain, dir.fn);
    res := dir.Register();
    PlaceIs(dir);
    if res == FR_DENIED {
      DoneRefused(dir.fs.g, p, PlaceNow(dir), dir.index, dir.fn, tm);
      NoRoomIntro(dir);
      SettledIntro(dir, p, tm, Refused);
    } else if res == FR_OK {
      dir.OKIs();
      dir.EntryIs();
      NewEntryIs(dir.fs.g, dir.fs.fat, dir.chain, dir.fn);
      ghost var p1, e := PlaceNow(dir), NewEntry(dir.fn);
      EmptiedEntry(dir.fs.g, e, tm);
      dir.fs.NowIs();
      res := dir.Overwrite(tm, []);
      dir.fs.NowIs();
      PlaceIs(dir);
      if res == FR_OK {
        ClearedNothing(dir.fs.g, p1.fat, dir.chain, p1.snap, dir.fs.fat, dir.fs.Now());
        DirTrans(dir.fs.g, p.fat, p.chain, p.snap, p1.fat, p1.chain, p1.snap, dir.fs.fat, dir.chain, dir.fs.Now());
        PlacedAgain(p.slots, p1.slots, dir.Table(), dir.index, e, FatDirState.Emptied(e, tm));
        DoneCreated(dir.fs.g, p, PlaceNow(dir), dir.index, dir.fn, tm);
        RewrittenIs(p1.slots, dir.Table(), dir.index, FatDirState.Emptied(e, tm));
        AtFileIntro(dir);
        SettledIntro(dir, p, tm, Created);
      }
    }
  }

  /** The object is at a regular file with the name, and the entry is in the window. */
  ghost predicate AtFile(dir: Dir)
    reads dir, dir.fs, dir.fs.win
  {
    && dir.At(dir.index) && dir.index < |dir.Table()| && dir.fs.winsect == dir.sect
    && Live(dir.Table()[dir.index]) && !Folder(dir.Table()[dir.index]) && Name(dir.Table()[dir.index]) == dir.fn
  }

  lemma AtFileIntro(dir: Dir)
    requires dir.At(dir.index) && dir.index < |dir.Table()| && dir.fs.winsect == dir.sect
    requires Live(dir.Table()[dir.index]) && !Folder(dir.Table()[dir.index]) && Name(dir.Table()[dir.index]) == dir.fn
    ensures AtFile(dir)
  {
  }

  lemma AtFileIs(dir: Dir)
    requires AtFile(dir)
    ensures dir.At(dir.index) && dir.index < |dir.Table()| && dir.fs.winsect == dir.sect
    ensures Live(dir.Table()[dir.index]) && !Folder(dir.Table()[dir.index]) && Name(dir.Table()[dir.index]) == dir.fn
  {
  }

  /** No slot is free, and the table cannot grow. */
  ghost predicate NoRoom(dir: Dir)
    reads dir, dir.fs, dir.fs.win
  {
    NoFreeSlot(dir.Table()) && (NoneFree(dir.fs.fat) || dir.chain == [] || |dir.Table()| >= 0x1_0000)
  }

  lemma NoRoomIntro(dir: Dir)
    requires NoFreeSlot(dir.Table()) && (NoneFree(dir.fs.fat) || dir.chain == [] || |dir.Table()| >= 0x1_0000)
    ensures NoRoom(dir)
  {
  }

  lemma FitsNone(g: Geometry, e: Slot)
    requires ClusterIn(g, e) == 0 && FatFileState.EntrySize(e) == 0
    ensures Fits(g, e, [])
  {
  }

  lemma EmptiedEntry(g: Geometry, e: Slot, tm: dword)
    requires Live(e)
    ensures var r := FatDirState.Emptied(e, tm); Live(r) && !Folder(r) && Name(r) == Name(e)
    ensures Fits(g, FatDirState.Emptied(e, tm), []) && FatFileState.EntrySize(FatDirState.Emptied(e, tm)) == 0
  {
    hide *;
    EmptiedIs(g, e, tm);
    AttributesIs(FatDirState.Emptied(e, tm));
    FitsNone(g, FatDirState.Emptied(e, tm));
  }

  /** Empty the file that the object is at. */
  method Reset(dir: Dir, tm: dword, ghost ch: seq<nat>) returns (res: FResult)
    requires dir.OK() && DirOK(dir.Table()) && AtFile(dir) && |dir.fn| == 11
    requires OtherChain(dir.fs.fat, dir.chain, ch, ClusterIn(dir.fs.g, dir.Entry()))
    modifies dir.fs`winsect, dir.fs`wflag, dir.fs`media, dir.fs`durable, dir.fs`faults, dir.fs`log, dir.fs`fat
    modifies dir.fs`cuts, dir.fs.win
    modifies dir.fs`lastClust, dir.fs`freeClust, dir.fs`fsiFlag
    ensures dir.fs.Valid() && dir.fs.faults >= old(dir.fs.faults)
    ensures CutsHold(dir.fs.g.fsType, old(dir.fs.cuts)) ==> CutsHold(dir.fs.g.fsType, dir.fs.cuts)
    ensures res == FR_OK && Exact(old(dir.fs.freeClust), old(dir.fs.fat)) ==> Exact(dir.fs.freeClust, dir.fs.fat)
    ensures res == FR_OK || (res == FR_DISK_ERR && dir.fs.faults > old(dir.fs.faults))
    ensures res == FR_OK ==> Settled(dir, old(PlaceNow(dir)), tm, Emptied(ch)) && AtFile(dir)
  {
    hide *;
    AtFileIs(dir);
    dir.OKIs();
    dir.EntryIs();
    PlaceIs(dir);
    ghost var p := PlaceNow(dir);
    EmptiedEntry(dir.fs.g, dir.Entry(), tm);
    dir.fs.NowIs();
    res := dir.Overwrite(tm, ch);
    dir.fs.NowIs();
    PlaceIs(dir);
    if res == FR_OK {
      RewrittenIs(p.slots, dir.Table(), dir.index, FatDirState.Emptied(p.slots[dir.index], tm));
      DoneEmptied(dir.fs.g, p, PlaceNow(dir), dir.index, dir.fn, tm, ch);
      SettledIntro(dir, p, tm, Emptied(ch));
      AtFileIntro(dir);
    }
  }

  /** What the answer comes to: `Make` may find no room. */
  ghost predicate Answered(answer: Answer, res: FResult, how: Outcome, dir: Dir)
    reads dir, dir.fs, dir.fs.win
  {
    match answer {
      case Refuse(r) => res == r && how == Refused
      case Reuse => res == FR_OK && how == Kept
      case Clear => res == FR_OK && how.Emptied?
      case Make => if res == FR_OK then how == Created else res == FR_DENIED && how == Refused && NoRoom(dir)
    }
  }

  lemma AnsweredIs(answer: Answer, res: FResult, how: Outcome, dir: Dir)
    requires Answered(answer, res, how, dir)
    ensures answer.Refuse? ==> res == answer.res && how == Refused
    ensures answer == Reuse ==> res == FR_OK && how == Kept
    ensures answer == Clear ==> res == FR_OK && how.Emptied?
    ensures answer == Make ==>
              if res == FR_OK then how == Created else res == FR_DENIED && how == Refused && NoRoom(dir)
  {
    hide NoRoom;
  }

  lemma OpenChainIs(how: Outcome, i: nat, chains: map<nat, seq<nat>>)
    ensures OpenChain(how, i, chains) == if how == Kept && i in chains then chains[i] else []
  {
  }

  /** A new file is made for unknown names only. */
  lemma WantedMake(slots: seq<Slot>, name: seq<byte>, mode: Mode)
    ensures Wanted(slots, name, mode) == Make ==> name !in Bindings(slots)
  {
  }

  lemma AnsweredIntro(answer: Answer, res: FResult, how: Outcome, dir: Dir)
    requires answer.Refuse? ==> res == answer.res && how == Refused
    requires answer == Reuse ==> res == FR_OK && how == Kept
    requires answer == Clear ==> res == FR_OK && how.Emptied?
    requires answer == Make ==>
              if res == FR_OK then how == Created else res == FR_DENIED && how == Refused && NoRoom(dir)
    ensures Answered(answer, res, how, dir)
  {
  }

  lemma SettledAfter(dir: Dir, p: Place, p1: Place, tm: dword, how: Outcome)
    requires Settled(dir, p1, tm, how) && dir.fs.g.Valid() && |p.snap.media| == dir.fs.g.nsect
    requires DirStays(dir.fs.g, p.fat, p.chain, p.snap, p1.fat, p1.chain, p1.snap) && p1.fat == p.fat
    requires p1.chain == p.chain
    requires p1.slots == p.slots && p1.snap.direct == p.snap.direct
    ensures Settled(dir, p, tm, how)
  {
    hide *;
    SettledIs(dir, p1, tm, how);
    DoneAfter(dir.fs.g, p, p1, PlaceNow(dir), dir.index, dir.fn, tm, how);
    SettledIntro(dir, p, tm, how);
  }

  /** How an open ends, by the attribute byte of the entry of that name, where bit 0 marks read-only files and bit 4
      directories: a directory is never opened, a read-only file never for writing, nor is it emptied or replaced; only
      new names are created, and no existing file if it has to be new; a file is emptied on explicit demand only. */
  ghost predicate Told(slots: seq<Slot>, name: seq<byte>, mode: Mode, res: FResult, how: Outcome) {
    var b := Bindings(slots);
    var creates := mode.createNew || mode.createAlways || mode.openAlways;
    var plain, protected := name in b && b[name][11] / 16 % 2 == 0, name in b && b[name][11] % 2 == 1;
    && (res == FR_EXIST <==> plain && !protected && mode.createNew)
    && (res == FR_NO_FILE <==> !creates && !plain)
    && (name in b ==> (res == FR_DENIED <==> if creates then !plain || protected else plain && protected && mode.write))
    && (how == Created ==> creates && name !in b) && (creates && name !in b ==> how == Created || res == FR_DENIED)
    && (how.Emptied? <==> plain && !protected && mode.createAlways && !mode.createNew)
    && (how == Kept <==> plain && !(if creates then protected || mode.createNew || mode.createAlways
                                    else protected && mode.write))
  }

  lemma ToldIntro(slots: seq<Slot>, name: seq<byte>, mode: Mode, res: FResult, how: Outcome, dir: Dir)
    requires Answered(Wanted(slots, name, mode), res, how, dir)
    ensures Told(slots, name, mode, res, how)
  {
    hide Bindings, NoRoom;
  }

  /** The name was found: its attributes decide. */
  method EnterFound(dir: Dir, mode: Mode, tm: dword, ghost chains: map<nat, seq<nat>>)
    returns (res: FResult, ghost how: Outcome)
    requires dir.OK() && DirOK(dir.Table()) && |dir.fn| == 11 && dir.At(dir.index) && dir.index < |dir.Table()|
    requires dir.fs.winsect == dir.sect
    requires Live(dir.Table()[dir.index]) && Name(dir.Table()[dir.index]) == dir.fn
    requires Chained(dir.fs.g, dir.fs.fat, dir.chain, dir.Table(), dir.fn, chains)
    modifies dir.fs`winsect, dir.fs`wflag, dir.fs`media, dir.fs`durable, dir.fs`faults, dir.fs`log, dir.fs`fat
    modifies dir.fs`cuts, dir.fs.win
    modifies dir.fs`lastClust, dir.fs`freeClust, dir.fs`fsiFlag
    ensures dir.fs.Valid() && dir.fs.faults >= old(dir.fs.faults)
    ensures CutsHold(dir.fs.g.fsType, old(dir.fs.cuts)) ==> CutsHold(dir.fs.g.fsType, dir.fs.cuts)
    ensures res != FR_DISK_ERR && Exact(old(dir.fs.freeClust), old(dir.fs.fat)) ==> Exact(dir.fs.freeClust, dir.fs.fat)
    ensures res == FR_DISK_ERR ==> dir.fs.faults > old(dir.fs.faults)
    ensures res != FR_DISK_ERR ==> Settled(dir, old(PlaceNow(dir)), tm, how)
    ensures res != FR_DISK_ERR ==>
              Answered(Decide(true, ReadOnly(old(dir.Entry())), Folder(old(dir.Entry())), mode), res, how, dir)
    ensures res == FR_OK ==> AtFile(dir) && how != Refused
    ensures res == FR_OK && how.Emptied? ==> dir.index in chains && how.chain == chains[dir.index]
    ensures res == FR_OK && how == Kept ==> dir.fs.fat == old(dir.fs.fat)
    ensures res == FR_OK ==> (how == Kept <==> !mode.createAlways)
  {
    hide *;
    dir.OKIs();
    dir.fs.Facts();
    InWindow(dir);
    PlaceIs(dir);
    ghost var p, e := PlaceNow(dir), dir.Entry();
    AttributesIs(e);
    DecideIs(true, ReadOnly(e), Folder(e), mode);
    DirSame(dir.fs.g, dir.fs.fat, dir.chain, dir.fs.Now());
    DoneKept(dir.fs.g, p, p, dir.index, dir.fn, tm);
    SettledIntro(dir, p, tm, Kept);
    SettledIntro(dir, p, tm, Refused);
    var attr := dir.fs.win[dir.off..dir.off + 32][11];
    res, how := FR_OK, Refused;
    if mode.createNew || mode.createAlways || mode.openAlways {
      if attr % 2 == 1 || attr / 16 % 2 == 1 {
        res := FR_DENIED;
      } else if mode.createNew {
        res := FR_EXIST;
      } else {
        AtFileIntro(dir);
        how := Kept;
        if mode.createAlways {
          ChainedAt(dir.fs.g, dir.fs.fat, dir.chain, dir.Table(), dir.fn, chains, dir.index);
          ghost var ch := chains[dir.index];
          res := Reset(dir, tm, ch);
          how := Emptied(ch);
        }
      }
    } else if attr / 16 % 2 == 1 {
      res := FR_NO_FILE;
    } else if mode.write && attr % 2 == 1 {
      res := FR_DENIED;
    } else {
      AtFileIntro(dir);
      how := Kept;
    }
    if res != FR_DISK_ERR { AnsweredIntro(Decide(true, ReadOnly(e), Folder(e), mode), res, how, dir); }
  }

  /** The directory work of an open: search, then register, empty or refuse. */
  method Enter(dir: Dir, mode: Mode, tm: dword, ghost chains: map<nat, seq<nat>>)
    returns (res: FResult, changed: bool, ghost how: Outcome)
    requires dir.OK() && DirOK(dir.Table()) && Storable(dir.fn)
    requires Chained(dir.fs.g, dir.fs.fat, dir.chain, dir.Table(), dir.fn, chains)
    modifies dir`index, dir`clust, dir`sect, dir`off, dir`chain, dir.fs`winsect, dir.fs`wflag, dir.fs`media
    modifies dir.fs`durable, dir.fs`direct
    modifies dir.fs`faults, dir.fs`log, dir.fs`fat, dir.fs`cuts, dir.fs`lastClust, dir.fs`freeClust, dir.fs`fsiFlag
    modifies dir.fs.win
    ensures dir.fs.Valid() && dir.fs.faults >= old(dir.fs.faults)
    ensures CutsHold(dir.fs.g.fsType, old(dir.fs.cuts)) ==> CutsHold(dir.fs.g.fsType, dir.fs.cuts)
    ensures res != FR_DISK_ERR && Exact(old(dir.fs.freeClust), old(dir.fs.fat)) ==> Exact(dir.fs.freeClust, dir.fs.fat)
    ensures res == FR_DISK_ERR ==> dir.fs.faults > old(dir.fs.faults)
    ensures res != FR_DISK_ERR ==> Settled(dir, old(PlaceNow(dir)), tm, how)
    ensures res != FR_DISK_ERR ==> Answered(old(Wanted(dir.Table(), dir.fn, mode)), res, how, dir)
    ensures res == FR_OK ==> AtFile(dir) && how != Refused
    ensures res == FR_OK && how.Emptied? ==> dir.index in chains && how.chain == chains[dir.index]
    ensures res == FR_OK && how == Kept ==> dir.fs.fat == old(dir.fs.fat)
    ensures res == FR_OK ==> changed == (how != Kept) && (how == Kept ==> dir.chain == old(dir.chain))
  {
    hide *;
    dir.OKIs();
    dir.fs.Facts();
    PlaceIs(dir);
    StorableIs(dir.fn);
    ghost var p, want := PlaceNow(dir), Wanted(dir.Table(), dir.fn, mode);
    WantedIs(dir.Table(), dir.fn, mode);
    how, changed := Refused, mode.createAlways;
    dir.fs.NowIs();
    res := dir.Find();
    dir.OKIs();
    PlaceIs(dir);
    dir.fs.NowIs();
    ghost var p1 := PlaceNow(dir);
    if res == FR_NO_FILE {
      DecideIs(false, false, false, mode);
      if mode.createNew || mode.createAlways || mode.openAlways {
        res := MakeNew(dir, tm);
        changed := true;
        how := if res == FR_OK then Created else Refused;
        if res != FR_DISK_ERR {
          SettledAfter(dir, p, p1, tm, how);
          AnsweredIntro(want, res, how, dir);
        }
      } else {
        DoneKept(dir.fs.g, p, p1, dir.index, dir.fn, tm);
        SettledIntro(dir, p, tm, how);
        AnsweredIntro(want, res, how, dir);
      }
    } else if res == FR_OK {
      dir.OKIs();
      dir.EntryIs();
      res, how := EnterFound(dir, mode, tm, chains);
      if res != FR_DISK_ERR { SettledAfter(dir, p, p1, tm, how); }
    }
  }

  /** The file object is what an open of the current entry makes. */
  ghost predicate Opens(dir: Dir, f: FatFile.Fil, mode: Mode, changed: bool, ch: seq<nat>)
    reads dir, dir.fs, dir.fs.win, f, f.buf, f.fs
  {
    && f.canRead == mode.read && f.canWrite == mode.write && f.err == FR_OK && f.written == changed && !f.dirty
    && f.dirSect == dir.sect && f.dirOff == dir.off && f.chain == ch && Good(dir.fs.g, f.S())
    && f.S() == FatFileState.Opened(dir.fs.fat, dir.fs.media, dir.fs.winsect, ch, f.buf[..],
                                    ClusterIn(dir.fs.g, dir.Entry()), FatFileState.EntrySize(dir.Entry()))
  }

  /** Start cluster and size as the entry has them. */
  method Attach(dir: Dir, mode: Mode, buf: array<byte>, changed: bool, ghost ch: seq<nat>) returns (f: FatFile.Fil)
    requires dir.OK() && AtFile(dir) && buf != dir.fs.win && buf.Length == 512
    requires Starts(dir.fs.fat, ClusterIn(dir.fs.g, dir.Entry()), ch) && Fits(dir.fs.g, dir.Entry(), ch)
    requires NoneShared(dir.chain, ch)
    ensures fresh(f) && f.fs == dir.fs && f.buf == buf && f.OK() && Opens(dir, f, mode, changed, ch)
  {
    hide *;
    AtFileIs(dir);
    InWindow(dir);
    dir.OKIs();
    dir.AtIs(dir.index);
    FitsIs(dir.fs.g, dir.Entry(), ch);
    TableData(dir.fs.g, dir.fs.fat, dir.sclust, dir.chain);
    var e: Slot := dir.fs.win[dir.off..dir.off + 32];
    f := new FatFile.Fil(dir.fs, buf, mode.read, mode.write, changed, ClusterIn(dir.fs.g, e), FatFileState.EntrySize(e),
                         dir.off, ch, dir.sclust, dir.chain);
    OpensIntro(dir, f, mode, changed, ch);
  }

  lemma OpensIntro(dir: Dir, f: FatFile.Fil, mode: Mode, changed: bool, ch: seq<nat>)
    requires f.canRead == mode.read && f.canWrite == mode.write && f.err == FR_OK && f.written == changed && !f.dirty
    requires f.dirSect == dir.sect && f.dirOff == dir.off && f.chain == ch && Good(dir.fs.g, f.S())
    requires f.S() == FatFileState.Opened(dir.fs.fat, dir.fs.media, dir.fs.winsect, ch, f.buf[..],
                                          ClusterIn(dir.fs.g, dir.Entry()), FatFileState.EntrySize(dir.Entry()))
    ensures Opens(dir, f, mode, changed, ch)
  {
  }

  lemma FitsIs(g: Geometry, e: Slot, ch: seq<nat>)
    requires Fits(g, e, ch)
    ensures ClusterIn(g, e) == (if ch == [] then 0 else ch[0])
    ensures FatFileState.EntrySize(e) <= 512 * Times(|ch|, g.csize)
  {
  }

  lemma TableData(g: Geometry, fat: seq<nat>, sclust: nat, chain: seq<nat>)
    requires TableOK(g, fat, sclust, chain)
    ensures DataFits(g) && HeapOK(fat)
  {
  }

  /** The chain that the file is opened with. */
  ghost function OpenChain(how: Outcome, i: nat, chains: map<nat, seq<nat>>): seq<nat> {
    if how == Kept && i in chains then chains[i] else []
  }

  /** What the entry is like that an open ends at. */
  lemma EntryAfter(dir: Dir, p: Place, tm: dword, how: Outcome, chains: map<nat, seq<nat>>)
    requires Settled(dir, p, tm, how) && AtFile(dir) && how != Refused
    requires how == Kept ==>
              dir.fs.fat == p.fat && dir.chain == p.chain && Chained(dir.fs.g, p.fat, p.chain, p.slots, dir.fn, chains)
    ensures var ch := OpenChain(how, dir.index, chains);
            && Starts(dir.fs.fat, ClusterIn(dir.fs.g, dir.Entry()), ch) && Fits(dir.fs.g, dir.Entry(), ch)
            && NoneShared(dir.chain, ch)
  {
    hide *;
    SettledIs(dir, p, tm, how);
    AtFileIs(dir);
    dir.EntryIs();
    PlaceIs(dir);
    EntryMade(dir.fs.g, p, PlaceNow(dir), dir.index, dir.fn, tm, how, chains);
  }

  lemma EntryMade(g: Geometry, p: Place, q: Place, i: nat, fn: seq<byte>, tm: dword, how: Outcome,
                  chains: map<nat, seq<nat>>)
    requires |fn| == 11 && Done(g, p, q, i, fn, tm, how) && how != Refused && i < |q.slots|
    requires how == Kept ==> q.fat == p.fat && q.chain == p.chain && Chained(g, p.fat, p.chain, p.slots, fn, chains)
    requires Live(q.slots[i]) && !Folder(q.slots[i]) && Name(q.slots[i]) == fn
    ensures var ch := OpenChain(how, i, chains);
            Starts(q.fat, ClusterIn(g, q.slots[i]), ch) && Fits(g, q.slots[i], ch) && NoneShared(q.chain, ch)
  {
    hide DirStays, Within, Mine, Reach, FatDirState.Emptied, NewEntry, ClusterIn, FatFileState.EntrySize, IsChain;
    hide Unlinked, Live, Folder, Name;
    match how {
      case Kept => ChainedAt(g, p.fat, p.chain, p.slots, fn, chains, i);
      case Created =>
        EmptiedIs(g, NewEntry(fn), tm);
        FitsNone(g, q.slots[i]);
      case Emptied(ch) =>
        EmptiedIs(g, p.slots[i], tm);
        FitsNone(g, q.slots[i]);
    }
  }

  /** `f_open` once the path has led to the directory: the directory work, then a file object that takes
      start cluster and size from the entry in the window. */
  method FOpen(dir: Dir, mode: Mode, tm: dword, buf: array<byte>, ghost chains: map<nat, seq<nat>>)
    returns (res: FResult, f: FatFile.Fil?, ghost how: Outcome)
    requires dir.OK() && DirOK(dir.Table()) && Storable(dir.fn) && buf != dir.fs.win && buf.Length == 512
    requires Chained(dir.fs.g, dir.fs.fat, dir.chain, dir.Table(), dir.fn, chains)
    modifies dir`index, dir`clust, dir`sect, dir`off, dir`chain, dir.fs`winsect, dir.fs`wflag, dir.fs`media
    modifies dir.fs`durable, dir.fs`direct
    modifies dir.fs`faults, dir.fs`log, dir.fs`fat, dir.fs`cuts, dir.fs`lastClust, dir.fs`freeClust, dir.fs`fsiFlag
    modifies dir.fs.win
    ensures dir.fs.Valid() && dir.fs.faults >= old(dir.fs.faults)
    ensures CutsHold(dir.fs.g.fsType, old(dir.fs.cuts)) ==> CutsHold(dir.fs.g.fsType, dir.fs.cuts)
    ensures res != FR_DISK_ERR && Exact(old(dir.fs.freeClust), old(dir.fs.fat)) ==> Exact(dir.fs.freeClust, dir.fs.fat)
    ensures res == FR_DISK_ERR ==> dir.fs.faults > old(dir.fs.faults)
    ensures res != FR_DISK_ERR ==> Settled(dir, old(PlaceNow(dir)), tm, how)
    ensures res != FR_DISK_ERR ==> Answered(old(Wanted(dir.Table(), dir.fn, mode)), res, how, dir)
    ensures res == FR_OK ==> AtFile(dir) && how != Refused
    ensures res == FR_OK && how.Emptied? ==> dir.index in chains && how.chain == chains[dir.index]
    ensures res == FR_OK && how == Kept ==> dir.fs.fat == old(dir.fs.fat) && dir.chain == old(dir.chain)
    ensures res == FR_OK <==> f != null
    ensures f != null ==>
              && fresh(f) && f.fs == dir.fs && f.buf == buf && f.OK()
              && Opens(dir, f, mode, how != Kept, OpenChain(how, dir.index, chains))
    ensures res != FR_DISK_ERR ==> Told(old(dir.Table()), dir.fn, mode, res, how)
  {
    hide *;
    PlaceIs(dir);
    f := null;
    var changed;
    res, changed, how := Enter(dir, mode, tm, chains);
    if res != FR_DISK_ERR { ToldIntro(old(dir.Table()), dir.fn, mode, res, how, dir); }
    if res == FR_OK {
      EntryAfter(dir, old(PlaceNow(dir)), tm, how, chains);
      SettledIs(dir, old(PlaceNow(dir)), tm, how);
      f := Attach(dir, mode, buf, changed, OpenChain(how, dir.index, chains));
    }
  }

  // ---------- Removing ----------

  /** The entry with that name is marked deleted; every other slot is as it was. */
  ghost predicate Struck(slots: seq<Slot>, slots': seq<Slot>, k: nat, name: seq<byte>) {
    && k < |slots| && Live(slots[k]) && Name(slots[k]) == name && slots' == slots[k := Deleted()]
    && DirOK(slots') && Bindings(slots') == Bindings(slots) - {name}
  }

  lemma StruckByte(slots: seq<Slot>, slots': seq<Slot>, k: nat, name: seq<byte>)
    ensures Struck(slots, slots', k, name) ==> k < |slots| && k < |slots'| && slots'[k][0] == 0xE5
  {
    hide Bindings, DirOK;
  }

  lemma StruckIntro(slots: seq<Slot>, slots': seq<Slot>, k: nat, name: seq<byte>)
    requires k < |slots| && Live(slots[k]) && Name(slots[k]) == name && slots' == slots[k := Deleted()]
    requires DirOK(slots') && Bindings(slots') == Bindings(slots) - {name}
    ensures Struck(slots, slots', k, name)
  {
  }

  /** Writing everything pending leaves a directory alone. */
  lemma SyncStays(g: Geometry, f: seq<nat>, ch: seq<nat>, a: Snapshot, b: Snapshot)
    requires Clusters(g, ch) && |a.view| == |a.media| && |b.media| == |a.media| && SameSectors(g, a.view, b.view)
    requires b.direct == a.direct
    requires b.winsect == a.winsect || g.IsFsInfo(b.winsect)
    requires forall s: nat :: g.database <= s < |a.media| && s != a.winsect ==> b.media[s] == a.media[s]
    ensures DirStays(g, f, ch, a, f, ch, b)
  {
  }

  /** `f_unlink`, once the path has led to the directory; it stops at a subdirectory, `folder`, whose
      removal is not part of this model. */
  method Unlink(dir: Dir) returns (res: FResult, folder: bool)
    requires dir.OK() && DirOK(dir.Table()) && Storable(dir.fn)
    modifies dir`index, dir`clust, dir`sect, dir`off, dir.fs`winsect, dir.fs`wflag, dir.fs`media, dir.fs`durable
    modifies dir.fs`faults, dir.fs`log, dir.fs`fat, dir.fs`cuts, dir.fs`fsiFlag, dir.fs.win
    ensures dir.OK() && dir.fs.faults >= old(dir.fs.faults) && dir.fs.fat == old(dir.fs.fat)
    ensures CutsHold(dir.fs.g.fsType, old(dir.fs.cuts)) ==> CutsHold(dir.fs.g.fsType, dir.fs.cuts)
    ensures || res == FR_OK || res == FR_NO_FILE || res == FR_DENIED
            || (res == FR_DISK_ERR && dir.fs.faults > old(dir.fs.faults))
    ensures res == FR_NO_FILE ==> dir.fn !in old(Bindings(dir.Table())) && dir.Table() == old(dir.Table())
    ensures res == FR_DENIED ==>
              && dir.Table() == old(dir.Table()) && dir.fn in Bindings(dir.Table())
              && ReadOnly(Bindings(dir.Table())[dir.fn])
    ensures res == FR_OK && !folder ==> Struck(old(dir.Table()), dir.Table(), dir.index, dir.fn)
    ensures res == FR_OK && !folder ==>
              && dir.index < |old(dir.Table())| && !ReadOnly(old(dir.Table())[dir.index])
              && !Folder(old(dir.Table())[dir.index])
    ensures folder ==>
              && res == FR_OK && dir.Table() == old(dir.Table()) && dir.fn in Bindings(dir.Table())
              && Folder(Bindings(dir.Table())[dir.fn])
    ensures DirStays(dir.fs.g, old(dir.fs.fat), old(dir.chain), old(dir.fs.Now()), dir.fs.fat, dir.chain, dir.fs.Now())
    ensures res == FR_DENIED ==> Bindings(dir.Table())[dir.fn][11] % 2 == 1
    ensures folder ==> Bindings(dir.Table())[dir.fn][11] / 16 % 2 == 1 && Bindings(dir.Table())[dir.fn][11] % 2 == 0
    ensures res == FR_OK && !folder ==>
              && Holds(old(dir.Table())[dir.index], dir.fn) && old(dir.Table())[dir.index][11] % 2 == 0
              && old(dir.Table())[dir.index][11] / 16 % 2 == 0 && dir.Table()[dir.index][0] == 0xE5
  {
    hide *;
    dir.OKIs();
    dir.fs.Facts();
    ghost var a, t := dir.fs.Now(), dir.Table();
    folder := false;
    res := dir.Find();
    dir.OKIs();
    if res == FR_OK {
      InWindow(dir);
      AttributesIs(dir.Entry());
      var attr := dir.fs.win[dir.off..dir.off + 32][11];
      if attr % 2 == 1 {
        res := FR_DENIED;
      } else if attr / 16 % 2 == 1 {
        folder := true;
      } else {
        ghost var a1, i := dir.fs.Now(), dir.index;
        dir.EntryIs();
        res := dir.Remove();
        if res == FR_OK { StruckIntro(t, dir.Table(), i, dir.fn); }
        DirTrans(dir.fs.g, dir.fs.fat, dir.chain, a, dir.fs.fat, dir.chain, a1, dir.fs.fat, dir.chain, dir.fs.Now());
        dir.OKIs();
        if res == FR_OK { res := Flushed(dir, a, t); }
        StruckByte(t, dir.Table(), i, dir.fn);
      }
    }
  }

  /** `sync_fs` at the end. */
  method Flushed(dir: Dir, ghost a: Snapshot, ghost t: seq<Slot>) returns (res: FResult)
    requires dir.OK() && DirStays(dir.fs.g, dir.fs.fat, dir.chain, a, dir.fs.fat, dir.chain, dir.fs.Now())
    requires |a.media| == dir.fs.g.nsect
    modifies dir.fs`winsect, dir.fs`wflag, dir.fs`media, dir.fs`durable, dir.fs`faults, dir.fs`fsiFlag, dir.fs.win
    ensures dir.OK() && dir.fs.faults >= old(dir.fs.faults) && dir.Table() == old(dir.Table())
    ensures res == FR_OK || (res == FR_DISK_ERR && dir.fs.faults > old(dir.fs.faults))
    ensures DirStays(dir.fs.g, dir.fs.fat, dir.chain, a, dir.fs.fat, dir.chain, dir.fs.Now())
  {
    hide *;
    dir.OKIs();
    dir.fs.Facts();
    ghost var v, a1 := dir.fs.View(), dir.fs.Now();
    res := dir.fs.SyncFs();
    dir.fs.Facts();
    SameIs(dir.fs.g, v, dir.fs.View());
    dir.Same(v, old(dir.Table()));
    SyncStays(dir.fs.g, dir.fs.fat, dir.chain, a1, dir.fs.Now());
    DirTrans(dir.fs.g, dir.fs.fat, dir.chain, a, dir.fs.fat, dir.chain, a1, dir.fs.fat, dir.chain, dir.fs.Now());
  }
}
