/** The one-sector write-back window of a mounted volume. The disk is an array of
    sectors with atomic transfers that may fail; `faults` counts the failures. */
module FatVolume {
  import opened Bytes
  import opened FatEntry

  /** Nothing but the second FAT, which the window mirrors to, and the FSINFO sector,
      which is written without checking, may differ. */
  ghost predicate SameSectors(g: Geometry, v: seq<Sector>, v': seq<Sector>) {
    |v'| == |v| && forall s: nat :: s < |v| && !g.InFat2(s) && !g.IsFsInfo(s) ==> v'[s] == v[s]
  }

  /** The two contents agree on every sector that only the window writes to. */
  ghost predicate Agree(g: Geometry, direct: set<nat>, v: seq<Sector>, r: seq<Sector>) {
    |v| == |r| && forall s: nat :: s < |v| && !g.InFat2(s) && !g.IsFsInfo(s) && s !in direct ==> v[s] == r[s]
  }

  lemma AgreeKept(g: Geometry, direct: set<nat>, v: seq<Sector>, v': seq<Sector>, r: seq<Sector>)
    requires Agree(g, direct, v, r) && SameSectors(g, v, v')
    ensures Agree(g, direct, v', r)
  {
  }

  /** What the upper layers see of the sectors. */
  datatype Snapshot = Snapshot(view: seq<Sector>, media: seq<Sector>, winsect: nat, direct: set<nat>)

  /** A step that reads or changes FAT entries only: the window shows every other sector
      as before, on the drive only the sector that was in the window can change outside
      the FAT, and a window that moves, moves to the FAT or becomes unusable. */
  ghost predicate FatStep(g: Geometry, a: Snapshot, b: Snapshot) {
    && |b.view| == |a.view| && |b.media| == |a.media| && b.direct == a.direct
    && (forall s: nat :: s < |a.view| && !g.InFat1(s) && !g.InFat2(s) && !g.IsFsInfo(s) ==> b.view[s] == a.view[s])
    && (forall s: nat :: g.database <= s < |a.media| && s != a.winsect ==> b.media[s] == a.media[s])
    && (b.winsect == a.winsect || g.InFat1(b.winsect) || b.winsect == ALL_ONES)
  }

  lemma FatStepTrans(g: Geometry, a: Snapshot, b: Snapshot, c: Snapshot)
    requires g.Valid() && |a.media| == g.nsect
    requires FatStep(g, a, b) && FatStep(g, b, c)
    ensures FatStep(g, a, c)
  {
  }

  /** A store keeps the agreement with its journal. */
  lemma JournalAppend(g: Geometry, direct: set<nat>, base: seq<Sector>, log: seq<Patch>, v: seq<Sector>, p: Patch)
    requires Agree(g, direct, v, Replay(base, log))
    ensures Agree(g, direct, Apply(v, p), Replay(base, log + [p]))
  {
    assert (log + [p])[..|log + [p]| - 1] == log;
  }

  lemma AppendReplay(base: seq<Sector>, log: seq<Patch>, p: Patch)
    ensures Replay(base, log + [p]) == Apply(Replay(base, log), p)
  {
    assert (log + [p])[..|log + [p]| - 1] == log;
  }

  /** A patch with the whole contents of a sector brings that sector into the journal. */
  lemma Adopted(g: Geometry, direct: set<nat>, m: seq<Sector>, r: seq<Sector>, p: Patch)
    requires Agree(g, direct, m, r) && p.sector < |m| && p == Patch(p.sector, 0, m[p.sector])
    ensures Agree(g, direct - {p.sector}, m, Apply(r, p))
  {
    assert Splice(r[p.sector], 0, p.data) == m[p.sector];
  }

  ghost predicate CutsOf(g: Geometry, base: seq<Sector>, log: seq<Patch>, cuts: seq<seq<nat>>) {
    && g.Valid() && |base| == g.nsect && |cuts| == |log| + 1
    && forall k :: 0 <= k <= |log| ==> cuts[k] == g.Fat(Replay(base, log[..k]))
  }

  lemma CutsAppend(g: Geometry, base: seq<Sector>, log: seq<Patch>, cuts: seq<seq<nat>>, p: Patch)
    requires CutsOf(g, base, log, cuts)
    ensures CutsOf(g, base, log + [p], cuts + [g.Fat(Replay(base, log + [p]))])
  {
    hide Geometry.Fat, Replay;
    var log' := log + [p];
    assert log'[..|log'|] == log';
    assert forall k :: 0 <= k <= |log| ==> log'[..k] == log[..k];
  }

  /** What agrees with the journal has the FAT of the journal. */
  lemma FatOfAgree(g: Geometry, direct: set<nat>, v: seq<Sector>, r: seq<Sector>)
    requires g.Valid() && |v| == g.nsect && Agree(g, direct, v, r)
    requires forall s :: s in direct ==> g.database <= s
    ensures g.Fat(v) == g.Fat(r)
  {
    FatDependsOnFat1(g, v, r);
  }

  lemma FatKept(g: Geometry, v: seq<Sector>, v': seq<Sector>)
    requires g.Valid() && |v| == g.nsect && SameSectors(g, v, v')
    ensures g.Fat(v') == g.Fat(v)
  {
    FatDependsOnFat1(g, v, v');
  }

  lemma BytesSame(g: Geometry, v: seq<Sector>, v': seq<Sector>, o: nat, p: seq<byte>)
    requires g.Valid() && |v| == g.nsect && SameSectors(g, v, v') && BytesAt(g, v, o, p)
    ensures BytesAt(g, v', o, p)
  {
    BytesKept(g, v, v', o, p);
  }

  lemma PatchedSame(g: Geometry, v: seq<Sector>, v1: seq<Sector>, v2: seq<Sector>, o: nat, data: seq<byte>)
    requires g.Valid() && |v| == |v1| == g.nsect && SameSectors(g, v1, v2) && FatPatched(g, v, v1, o, data)
    ensures FatPatched(g, v, v2, o, data)
  {
    forall k: nat | k < g.fsize * 512 ensures g.FatByte(v2, k) == g.FatByte(v1, k) {
      SameByte(g, v1, v2, k);
    }
  }

  /** A step that writes `cc` sectors from `sect` on without the window, or some of them. */
  ghost predicate DataStep(sect: nat, cc: nat, a: Snapshot, b: Snapshot) {
    && |b.view| == |a.view| && |b.media| == |a.media| && b.winsect == a.winsect
    && (forall x :: x in b.direct ==> x in a.direct || sect <= x < sect + cc)
    && forall x: nat :: x < |a.view| && x < |a.media| && !(sect <= x < sect + cc) ==>
           b.view[x] == a.view[x] && b.media[x] == a.media[x]
  }

  /** The drive after `data` went to the `cc` sectors from `sect` on. */
  ghost predicate Sent(m: seq<Sector>, m': seq<Sector>, sect: nat, cc: nat, data: seq<byte>)
    requires |data| == 512 * cc
  {
    && |m'| == |m| && sect + cc <= |m'|
    && (forall k :: 0 <= k < cc ==> m'[sect + k] == data[512 * k..512 * k + 512])
    && (forall x: nat :: x < |m'| && !(sect <= x < sect + cc) ==> m'[x] == m[x])
  }

  lemma DataStepSelf(sect: nat, cc: nat, a: Snapshot)
    ensures DataStep(sect, cc, a, a)
  {
  }

  lemma DataStepTrans(sect: nat, cc: nat, i: nat, a: Snapshot, b: Snapshot, c: Snapshot)
    requires DataStep(sect, cc, a, b) && DataStep(sect + i, 1, b, c) && i < cc
    ensures DataStep(sect, cc, a, c)
  {
  }

  lemma StoreStep(g: Geometry, a: Snapshot, b: Snapshot, p: Patch)
    requires g.InFat1(p.sector) && b == a.(view := Apply(a.view, p))
    ensures FatStep(g, a, b)
  {
  }

  /** The two contents of the FAT differ at entry `clst` only. */
  ghost predicate OnlyAt(f: seq<nat>, f': seq<nat>, clst: nat) {
    |f'| == |f| && forall c :: 0 <= c < |f| && c != clst ==> f'[c] == f[c]
  }

  lemma OneByte(g: Geometry, v: seq<Sector>, o: nat, p: seq<byte>)
    requires g.Valid() && |v| == g.nsect && |p| == 1 && BytesAt(g, v, o, p)
    ensures p[0] == g.FatByte(v, o)
  {
    assert p[0] == g.FatByte(v, o + 0);
  }

  lemma OnlyAtIntro(f: seq<nat>, f': seq<nat>, clst: nat)
    requires |f'| == |f| && forall c :: 0 <= c < |f| && c != clst ==> f'[c] == f[c]
    ensures OnlyAt(f, f', clst)
  {
  }

  ghost predicate CopiesEqual(g: Geometry, m: seq<Sector>)
    requires g.Valid() && g.nFats == 2 && |m| == g.nsect
  {
    forall s: nat :: g.InFat1(s) ==> m[s + g.fsize] == m[s]
  }

  /** The drive after a write-back of sector `s`, reflected to the second FAT or not. */
  ghost function Written(g: Geometry, m: seq<Sector>, s: nat, data: Sector, reflected: bool): (r: seq<Sector>)
    requires g.Valid() && |m| == g.nsect && s < g.nsect
    ensures |r| == |m|
  {
    var m1 := m[s := data];
    if reflected && g.nFats == 2 && g.InFat1(s) then m1[s + g.fsize := data] else m1
  }

  lemma WrittenProperties(g: Geometry, m: seq<Sector>, s: nat, data: Sector, reflected: bool)
    requires g.Valid() && |m| == g.nsect && s < g.nsect && !g.InFat2(s)
    ensures SameSectors(g, m[s := data], Written(g, m, s, data, reflected))
    ensures Written(g, m, s, data, reflected)[s] == data
    ensures reflected && g.nFats == 2 && CopiesEqual(g, m) ==> CopiesEqual(g, Written(g, m, s, data, reflected))
  {
  }

  /** The unsigned comparison of the write-back is the test for the first FAT. */
  lemma WrappedTest(g: Geometry, sector: nat)
    requires g.Valid() && sector <= ALL_ONES
    ensures (sector - g.fatbase) % 0x1_0000_0000 < g.fsize <==> g.InFat1(sector)
  {
    if sector < g.fatbase {
      Euclid(sector - g.fatbase, 0x1_0000_0000, -1, sector - g.fatbase + 0x1_0000_0000);
    } else {
      Euclid(sector - g.fatbase, 0x1_0000_0000, 0, sector - g.fatbase);
    }
  }

  /** The contents of the FSINFO sector. */
  function FsInfo(free: nat, last: nat): Sector
    requires free < 0x1_0000_0000 && last < 0x1_0000_0000
  {
    StDword(0x4161_5252) + seq(480, _ => 0) + StDword(0x6141_7272) + StDword(free) + StDword(last)
        + seq(14, _ => 0) + StWord(0xAA55)
  }

  /** The sector has the marks of FSINFO: "RRaA" at the start, "rrAa" at 484, 55 AA at the end. */
  ghost predicate IsInfo(s: Sector) {
    && s[0] == 0x52 && s[1] == 0x52 && s[2] == 0x61 && s[3] == 0x41
    && s[484] == 0x72 && s[485] == 0x72 && s[486] == 0x41 && s[487] == 0x61
    && s[510] == 0x55 && s[511] == 0xAA
  }

  /** The free count is at 488 and the cluster allocated last at 492. */
  ghost predicate InfoHolds(s: Sector, free: nat, last: nat) {
    IsInfo(s) && Le32(s, 488) == free && Le32(s, 492) == last
  }

  lemma FsInfoMarks()
    ensures StDword(0x4161_5252) == [0x52, 0x52, 0x61, 0x41] && StDword(0x6141_7272) == [0x72, 0x72, 0x41, 0x61]
    ensures StWord(0xAA55) == [0x55, 0xAA]
  {
  }

  lemma FsInfoIs(free: nat, last: nat)
    requires free < 0x1_0000_0000 && last < 0x1_0000_0000
    ensures InfoHolds(FsInfo(free, last), free, last)
  {
    FsInfoMarks();
    var s, a, b, c, d, e :=
        FsInfo(free, last), StDword(0x4161_5252), StDword(0x6141_7272), StDword(free), StDword(last),
      StWord(0xAA55);
    hide StDword, StWord;
    assert s == a + seq(480, _ => 0) + b + c + d + seq(14, _ => 0) + e;
    assert s[488] == c[0] && s[489] == c[1] && s[490] == c[2] && s[491] == c[3];
    assert s[492] == d[0] && s[493] == d[1] && s[494] == d[2] && s[495] == d[3];
  }

  /** The marks as the words that the mount compares. */
  lemma MarksAre(s: Sector)
    ensures IsInfo(s) <==> LdWord(s[510], s[511]) == 0xAA55 && LdDword(s[0], s[1], s[2], s[3]) == 0x4161_5252
                           && LdDword(s[484], s[485], s[486], s[487]) == 0x6141_7272
    ensures LdDword(s[488], s[489], s[490], s[491]) == Le32(s, 488)
    ensures LdDword(s[492], s[493], s[494], s[495]) == Le32(s, 492)
    ensures 0 <= Le32(s, 488) <= 0xFFFF_FFFF && 0 <= Le32(s, 492) <= 0xFFFF_FFFF
  {
  }

  lemma WordIsOne(b0: byte, b1: byte)
    ensures LdWord(b0, b1) == 1 <==> b0 == 1 && b1 == 0
  {
  }

  lemma LoadedMarks(s: Sector)
    ensures (LdWord(s[510], s[511]) == 0xAA55 && LdDword(s[0], s[1], s[2], s[3]) == 0x4161_5252
             && LdDword(s[484], s[485], s[486], s[487]) == 0x6141_7272) <==> IsInfo(s)
    ensures IsInfo(s) ==>
              InfoHolds(s, LdDword(s[488], s[489], s[490], s[491]), LdDword(s[492], s[493], s[494], s[495]))
    ensures LdDword(s[488], s[489], s[490], s[491]) <= 0xFFFF_FFFF
    ensures LdDword(s[492], s[493], s[494], s[495]) <= 0xFFFF_FFFF
  {
    MarksAre(s);
    hide LdDword, LdWord, IsInfo, Le32;
  }

  lemma FsInfoPlace(g: Geometry)
    requires g.Valid() && g.fsType == FAT32
    ensures g.volbase + 1 < g.nsect && g.volbase + 1 < g.database && g.IsFsInfo(g.volbase + 1)
    ensures !g.InFat1(g.volbase + 1) && !g.InFat2(g.volbase + 1)
  {
  }

  lemma SameSelf(g: Geometry, v: seq<Sector>)
    ensures SameSectors(g, v, v)
  {
  }

  lemma SameTwice(g: Geometry, a: seq<Sector>, b: seq<Sector>, c: seq<Sector>)
    requires SameSectors(g, a, b) && SameSectors(g, b, c)
    ensures SameSectors(g, a, c)
  {
  }

  /** What a FAT step does to the drive outside the FAT. */
  lemma StepMedia(g: Geometry, a: Snapshot, b: Snapshot)
    requires FatStep(g, a, b)
    ensures |b.media| == |a.media|
    ensures forall s: nat :: g.database <= s < |a.media| && s != a.winsect ==> b.media[s] == a.media[s]
  {
  }

  lemma FillStep(g: Geometry, a: Snapshot, b: Snapshot)
    requires SameSectors(g, a.view, b.view) && b.media == a.media && b.direct == a.direct
    requires (g.InFat1(b.winsect) || b.winsect == ALL_ONES)
    ensures FatStep(g, a, b)
  {
  }

  function Zeros(): Sector { seq(512, _ => 0) }

  lemma ClearIs(v: seq<Sector>, s: nat)
    requires s < |v|
    ensures Apply(v, Patch(s, 0, Zeros())) == v[s := Zeros()]
  {
    assert Splice(v[s], 0, Zeros()) == Zeros();
  }

  lemma AppendBlock(m: seq<Sector>, sect: nat, i: nat, data: seq<byte>, block: Sector)
    requires sect + i < |m| && block == m[sect + i] && |data| == 512 * i
    requires forall k :: 0 <= k < i ==> data[512 * k..512 * k + 512] == m[sect + k]
    ensures forall k :: 0 <= k <= i ==> (data + block)[512 * k..512 * k + 512] == m[sect + k]
  {
    forall k | 0 <= k <= i ensures (data + block)[512 * k..512 * k + 512] == m[sect + k] {
      if k < i { assert (data + block)[512 * k..512 * k + 512] == data[512 * k..512 * k + 512]; }
    }
  }

  /** Copy bytes into a buffer. */
  method CopyBytes(buff: array<byte>, off: nat, data: seq<byte>)
    requires off + |data| <= buff.Length
    modifies buff
    ensures buff[..] == Splice(old(buff[..]), off, data)
  {
    forall i | 0 <= i < |data| { buff[off + i] := data[i]; }
  }

  class FatFs {
    const g: Geometry
    const win: array<byte>
    var winsect: nat
    var wflag: bool
    var lastClust: dword
    var freeClust: dword
    var fsiFlag: nat
    /** The sectors on the drive. */
    var media: seq<Sector>

    ghost const equalAtMount: bool   // the FAT copies were equal at mount
    ghost var base: seq<Sector>      // the drive at mount
    ghost var log: seq<Patch>        // every store made through the window since
    ghost var durable: nat           // how many of them are on the drive
    ghost var direct: set<nat>       // sectors written without the window
    ghost var faults: nat            // failed transfers so far
    ghost var fat: seq<nat>          // the first FAT, decoded
    ghost var cuts: seq<seq<nat>>    // the first FAT after each prefix of the log, decoded

    /** A volume as mounting leaves it: nothing pending, the window on the boot sector or on FSINFO,
        or unusable if FSINFO could not be read. */
    constructor (g: Geometry, media: seq<Sector>, at: nat, lastClust: dword, freeClust: dword, fsiFlag: nat)
      requires g.Valid() && |media| == g.nsect
      requires (at == ALL_ONES || (g.volbase <= at <= g.volbase + 1 && at < g.fatbase))
      ensures Valid() && this.g == g && this.media == media && this.freeClust == freeClust && fat == g.Fat(media)
      ensures cuts == [fat]
      ensures faults == 0 && log == [] && direct == {} && winsect == at && View() == media && fresh(win)
      ensures at < |media| ==> win[..] == media[at]
      ensures !wflag && this.lastClust == lastClust && this.fsiFlag == fsiFlag
      ensures equalAtMount == (g.nFats == 2 ==> CopiesEqual(g, media))
    {
      hide *;
      this.g, this.media := g, media;
      win := new byte[512](i => if 0 <= i < 512 && at < |media| then media[at][i] else 0);
      winsect, wflag := at, false;
      equalAtMount := g.nFats == 2 ==> CopiesEqual(g, media);
      this.lastClust, this.freeClust, this.fsiFlag := lastClust, freeClust, fsiFlag;
      base, log, durable, direct, faults, fat, cuts := media, [], 0, {}, 0, g.Fat(media), [g.Fat(media)];
      new;
      JustMounted(at);
    }

    lemma JustMounted(at: nat)
      requires g.Valid() && |media| == g.nsect
      requires (at == ALL_ONES || (g.volbase <= at <= g.volbase + 1 && at < g.fatbase))
      requires win.Length == 512 && (forall i :: 0 <= i < 512 && at < |media| ==> win[i] == media[at][i])
      requires winsect == at && !wflag && base == media && log == [] && durable == 0 && direct == {}
      requires fat == g.Fat(media) && cuts == [fat] && equalAtMount == (g.nFats == 2 ==> CopiesEqual(g, media))
      ensures Valid() && View() == media && (at < |media| ==> win[..] == media[at])
    {
      hide Geometry.Fat, CopiesEqual;
      assert at < |media| ==> win[..] == media[at];
      assert View() == media && Replay(base, []) == base && log[..0] == log;
    }

    /** What a reader of the window sees. */
    ghost function View(): (v: seq<Sector>)
      reads `winsect, `media, win
      ensures |v| == |media|
    {
      if winsect < |media| && win.Length == 512 then media[winsect := win[..]] else media
    }

    ghost function Now(): Snapshot
      reads `winsect, `media, `direct, win
    {
      Snapshot(View(), media, winsect, direct)
    }

    ghost predicate Shape()
      reads `winsect, `wflag, `media, `base, win
    {
      && g.Valid() && win.Length == 512 && |media| == |base| == g.nsect
      && (winsect < g.nsect || (winsect == ALL_ONES && !wflag))
      && !g.InFat2(winsect)
      && (!wflag && winsect < g.nsect && !g.IsFsInfo(winsect) ==> media[winsect] == win[..])
    }

    /** If the FATs were equal at mount, they are as long as no transfer fails. */
    ghost predicate Mirrored()
      reads `media, `faults
    {
      equalAtMount && faults == 0 && g.Valid() && g.nFats == 2 && |media| == g.nsect ==> CopiesEqual(g, media)
    }

    /** The drive holds a prefix of the stores; the rest lie in the dirty window. */
    ghost predicate Journal()
      reads `winsect, `wflag, `media, `base, `log, `durable, `direct, win
    {
      && durable <= |log|
      && (durable < |log| ==> wflag)
      && (forall i :: durable <= i < |log| ==> log[i].sector == winsect)
      && (forall s :: s in direct ==> g.database <= s)
      && Agree(g, direct, media, Replay(base, log[..durable]))
      && Agree(g, direct, View(), Replay(base, log))
    }

    ghost predicate Decoded()
      reads `winsect, `media, `base, `log, `fat, `cuts, win
    {
      g.Valid() && |View()| == g.nsect && fat == g.Fat(View()) && CutsOf(g, base, log, cuts)
    }

    ghost predicate Valid()
      reads `winsect, `wflag, `media, `base, `log, `durable, `direct, `faults, `fat, `cuts, win
    {
      Shape() && Mirrored() && Journal() && Decoded()
    }

    /** One atomic single-sector write. */
    method DiskWrite(sector: nat, data: Sector) returns (ok: bool)
      modifies `media, `faults
      ensures ok ==> sector < |old(media)| && media == old(media)[sector := data] && faults == old(faults)
      ensures !ok ==> media == old(media) && faults > old(faults)
    {
      ok := *;
      ok := ok && sector < |media|;
      if ok { media := media[sector := data]; } else { faults := faults + 1; }
    }

    /** One single-sector read; a failed one may leave anything in the buffer. */
    method DiskRead(buff: array<byte>, sector: nat) returns (ok: bool)
      requires buff.Length == 512
      modifies buff, `faults
      ensures ok ==> sector < |media| && buff[..] == media[sector] && faults == old(faults)
      ensures !ok ==> faults > old(faults)
    {
      ok := *;
      ok := ok && sector < |media|;
      if ok {
        forall i | 0 <= i < 512 { buff[i] := media[sector][i]; }
        assert buff[..] == media[sector];
      } else {
        faults := faults + 1;
      }
    }

    method SyncWindow() returns (res: FResult)
      requires Valid()
      modifies `wflag, `media, `durable, `faults
      ensures Valid()
      ensures SameSectors(g, old(View()), View()) && faults >= old(faults)
      ensures FatStep(g, old(Now()), Now())
      ensures res == FR_OK ==> !wflag && durable == |log|
      ensures res != FR_OK ==>
                res == FR_DISK_ERR && wflag && media == old(media) && durable == old(durable) && faults > old(faults)
      ensures !old(wflag) ==> res == FR_OK && media == old(media) && faults == old(faults)
    {
      hide *;
      Facts();
      SameSelf(g, View());
      res := FR_OK;
      if !wflag {
        CleanFacts();
      } else {
        DirtyFacts();
        ghost var m, seen, f0 := media, View(), faults;
        var ok, reflected := WriteBack();
        if !ok {
          res := FR_DISK_ERR;
          StillValid(f0);
        } else {
          wflag := false;
          durable := |log|;
          Synced(m, seen, f0, reflected);
        }
      }
    }

    /** What validity says about a dirty window. */
    lemma DirtyFacts()
      requires Valid() && wflag
      ensures g.Valid() && win.Length == 512 && |media| == |base| == g.nsect && winsect < g.nsect && !g.InFat2(winsect)
      ensures View() == media[winsect := win[..]] && (forall s :: s in direct ==> g.database <= s)
      ensures equalAtMount && faults == 0 && g.nFats == 2 ==> CopiesEqual(g, media)
      ensures Agree(g, direct, View(), Replay(base, log)) && fat == g.Fat(View()) && CutsOf(g, base, log, cuts)
    {
      hide Agree, Replay, CutsOf, Geometry.Fat, CopiesEqual;
    }

    /** A failed transfer that changed nothing. */
    twostate lemma StillValid(f0: nat)
      requires old(Valid()) && faults > f0
      requires winsect == old(winsect) && wflag == old(wflag) && media == old(media) && base == old(base)
      requires log == old(log)
      requires durable == old(durable) && direct == old(direct) && fat == old(fat) && cuts == old(cuts)
      requires win[..] == old(win[..])
      ensures Valid()
    {
    }

    /** The volume after a write-back. */
    lemma Synced(m: seq<Sector>, seen: seq<Sector>, f0: nat, reflected: bool)
      requires g.Valid() && win.Length == 512 && |m| == |base| == g.nsect && winsect < g.nsect && !g.InFat2(winsect)
      requires !wflag
      requires media == Written(g, m, winsect, win[..], reflected) && seen == m[winsect := win[..]] && durable == |log|
      requires faults >= f0 && (faults == f0 ==> reflected)
      requires equalAtMount && f0 == 0 && g.nFats == 2 ==> CopiesEqual(g, m)
      requires (forall s :: s in direct ==> g.database <= s) && Agree(g, direct, seen, Replay(base, log))
      requires fat == g.Fat(seen) && CutsOf(g, base, log, cuts)
      ensures Valid() && SameSectors(g, seen, View()) && FatStep(g, Snapshot(seen, m, winsect, direct), Now())
    {
      WrittenProperties(g, m, winsect, win[..], reflected);
      hide Geometry.Fat, Geometry.Entry, Replay, Written, CutsOf, CopiesEqual;
      assert View() == media;
      AgreeKept(g, direct, seen, media, Replay(base, log));
      assert log[..durable] == log;
      FatKept(g, seen, View());
    }

    /** The transfers of a write-back: the sector itself, then its FAT copies. */
    method WriteBack() returns (ok: bool, ghost reflected: bool)
      requires g.Valid() && win.Length == 512 && |media| == g.nsect && winsect < g.nsect
      modifies `media, `faults
      ensures !ok ==> media == old(media) && faults > old(faults)
      ensures ok ==> media == Written(g, old(media), winsect, win[..], reflected)
      ensures ok ==> faults >= old(faults) && (faults == old(faults) ==> reflected)
    {
      var wsect := winsect;
      reflected := true;
      ok := DiskWrite(wsect, win[..]);
      if ok {
        WrappedTest(g, wsect);
        if (wsect - g.fatbase) % 0x1_0000_0000 < g.fsize { reflected := ReflectToCopies(wsect); }
      }
    }

    /** Reflect a written FAT sector to the other copies; their write errors are ignored. */
    method ReflectToCopies(sector: nat) returns (ghost reflected: bool)
      requires g.Valid() && win.Length == 512 && g.InFat1(sector) && |media| == g.nsect
      modifies `media, `faults
      ensures faults >= old(faults) && (faults == old(faults) ==> reflected)
      ensures media == if reflected && g.nFats == 2 then old(media)[sector + g.fsize := win[..]] else old(media)
    {
      var wsect := sector;
      var nf := g.nFats;
      reflected := true;
      while nf >= 2
        invariant nf <= g.nFats && faults >= old(faults) && (faults == old(faults) ==> reflected)
        invariant nf == g.nFats ==> wsect == sector && media == old(media)
        invariant nf < g.nFats ==>
                  g.nFats == 2 && media == if reflected then old(media)[sector + g.fsize := win[..]] else old(media)
      {
        wsect := wsect + g.fsize;
        var ok := DiskWrite(wsect, win[..]);
        reflected := ok;
        nf := nf - 1;
      }
    }

    method MoveWindow(sector: nat) returns (res: FResult)
      requires Valid() && sector < g.nsect && !g.InFat2(sector)
      modifies `winsect, `wflag, `media, `durable, `faults, win
      ensures Valid()
      ensures SameSectors(g, old(View()), View()) && faults >= old(faults)
      ensures g.InFat1(sector) ==> FatStep(g, old(Now()), Now())
      ensures forall s: nat :: g.database <= s < g.nsect && s != old(winsect) ==> media[s] == old(media)[s]
      ensures res == FR_OK ==> winsect == sector
      ensures res != FR_OK ==> res == FR_DISK_ERR && faults > old(faults) && sector != old(winsect)
      ensures res != FR_OK ==> if wflag then winsect ==
               old(winsect) && media == old(media) && durable == old(durable) && win[..] == old(win[..])
                                        else winsect == ALL_ONES
      ensures sector == old(winsect) ==> wflag == old(wflag) && media == old(media) && win[..] == old(win[..])
      ensures !old(wflag) ==> !wflag && media == old(media) && (sector != old(winsect) ==> View() == media)
      ensures !old(wflag) && res == FR_OK ==> faults == old(faults)
    {
      hide *;
      Facts();
      ghost var a, v := Now(), View();
      SameSelf(g, v);
      res := FR_OK;
      if sector != winsect {
        res := SyncWindow();
        Facts();
        StepMedia(g, a, Now());
        if res == FR_OK {
          ghost var a1, v1 := Now(), View();
          res := FillWindow(sector);
          Facts();
          SameTwice(g, v, v1, View());
          if g.InFat1(sector) {
            FillStep(g, a1, Now());
            FatStepTrans(g, a, a1, Now());
          }
        }
      }
    }

    /** Load a sector into the clean window, or mark the window unusable. */
    method FillWindow(sector: nat) returns (res: FResult)
      requires Valid() && !wflag && sector < g.nsect && !g.InFat2(sector)
      modifies `winsect, `faults, win
      ensures Valid() && SameSectors(g, old(View()), View())
      ensures res == FR_OK ==> winsect == sector && faults == old(faults)
      ensures res != FR_OK ==> res == FR_DISK_ERR && winsect == ALL_ONES && faults > old(faults)
      ensures View() == media
    {
      CleanFacts();
      hide Geometry.Fat, Geometry.Entry, Replay, CopiesEqual;
      res := FR_OK;
      var target := sector;
      ghost var seen := View();
      var ok := DiskRead(win, sector);
      if !ok {
        target := ALL_ONES;
        res := FR_DISK_ERR;
      }
      winsect := target;
      assert View() == media;
      AgreeKept(g, direct, seen, media, Replay(base, log));
      FatKept(g, seen, View());
    }

    /** Bytes stored through a pointer into the window, which becomes dirty. */
    method Store(off: nat, data: seq<byte>)
      requires Valid() && winsect < g.nsect && off + |data| <= 512
      modifies `wflag, `log, `fat, `cuts, win
      ensures Valid() && wflag
      ensures log == old(log) + [Patch(winsect, off, data)]
      ensures View() == Apply(old(View()), Patch(winsect, off, data))
      ensures fat == g.Fat(View()) && cuts == old(cuts) + [fat]
      ensures !g.InFat1(winsect) ==> fat == old(fat)
    {
      hide Geometry.Fat, Geometry.Entry, CopiesEqual, Agree, Replay, CutsOf, Splice;
      ghost var seen := View();
      CopyBytes(win, off, data);
      wflag := true;
      ghost var p := Patch(winsect, off, data);
      JournalAppend(g, direct, base, log, seen, p);
      CutsAppend(g, base, log, cuts, p);
      log := log + [p];
      assert log[..durable] == old(log)[..durable] && View() == Apply(seen, p);
      fat := g.Fat(View());
      FatOfAgree(g, direct, View(), Replay(base, log));
      cuts := cuts + [fat];
      if !g.InFat1(winsect) { FatDependsOnFat1(g, seen, View()); }
    }

    /** Write everything pending to the drive, and the allocation counts to the FSINFO sector. */
    method SyncFs() returns (res: FResult)
      requires Valid()
      modifies `winsect, `wflag, `media, `durable, `faults, `fsiFlag, win
      ensures Valid() && faults >= old(faults) && SameSectors(g, old(View()), View())
      ensures res == FR_OK || (res == FR_DISK_ERR && faults > old(faults))
      ensures res == FR_OK ==> !wflag && durable == |log| && SameSectors(g, View(), media)
      ensures winsect == old(winsect) || g.IsFsInfo(winsect)
      ensures forall s: nat :: g.database <= s < |media| && s < |old(media)| && s != old(winsect) ==>
                media[s] == old(media)[s]
      ensures res == FR_OK && g.fsType == FAT32 && old(fsiFlag) == 1 && faults == old(faults) ==>
                fsiFlag == 0 && g.volbase + 1 < |media| && InfoHolds(media[g.volbase + 1], freeClust, lastClust)
    {
      hide *;
      Facts();
      ghost var a, v := Now(), View();
      res := SyncWindow();
      Facts();
      StepMedia(g, a, Now());
      ghost var v1 := View();
      SameSelf(g, v1);
      if res == FR_OK {
        CleanFacts();
        if g.fsType == FAT32 && fsiFlag == 1 { FsInfoPlace(g); WriteFsInfo(); Facts(); CleanFacts(); }
        var ok := *;
        if !ok {
          res := FR_DISK_ERR;
          Fault();
        }
        SameTwice(g, v, v1, View());
      }
    }

    /** The end of the mount: the counts come from FSINFO, if the boot sector, which is in the window, says that
        there is one and it has its marks; else they are unknown. */
    method LoadFsInfo()
      requires Valid() && !wflag && winsect == g.volbase
      modifies `winsect, `wflag, `media, `durable, `faults, `lastClust, `freeClust, `fsiFlag, win
      ensures Valid() && !wflag && media == old(media) && faults >= old(faults)
      ensures winsect == old(winsect) || winsect == ALL_ONES || g.IsFsInfo(winsect)
      ensures if g.fsType == FAT32 && old(win[48]) == 1 && old(win[49]) == 0 && faults == old(faults)
              then && fsiFlag == 0 && g.volbase + 1 < |media|
                   && (if IsInfo(media[g.volbase + 1]) then InfoHolds(media[g.volbase + 1], freeClust, lastClust)
                       else freeClust == lastClust == ALL_ONES)
              else fsiFlag == 0x80 && freeClust == lastClust == ALL_ONES
    {
      CountsFit();
      hide *;
      Facts();
      CleanFacts();
      lastClust, freeClust, fsiFlag := ALL_ONES, ALL_ONES, 0x80;
      WordIsOne(win[48], win[49]);
      if g.fsType == FAT32 && LdWord(win[48], win[49]) == 1 {
        FsInfoPlace(g);
        var res := MoveWindow(g.volbase + 1);
        Facts();
        if res == FR_OK {
          fsiFlag := 0;
          assert win[..] == media[g.volbase + 1];
          LoadedMarks(win[..]);
          if LdWord(win[510], win[511]) == 0xAA55 && LdDword(win[0], win[1], win[2], win[3]) == 0x4161_5252
             && LdDword(win[484], win[485], win[486], win[487]) == 0x6141_7272 {
            freeClust := LdDword(win[488], win[489], win[490], win[491]);
            lastClust := LdDword(win[492], win[493], win[494], win[495]);
          }
        }
      }
    }

    /** The FSINFO sector is composed in the clean window and written; a write error is ignored. */
    method WriteFsInfo()
      requires Valid() && !wflag && g.fsType == FAT32
      modifies `winsect, `media, `faults, `fsiFlag, win
      ensures Valid() && !wflag && faults >= old(faults) && SameSectors(g, old(View()), View())
      ensures g.IsFsInfo(winsect) && winsect == g.volbase + 1 && fsiFlag == 0
      ensures |media| == |old(media)| && forall s: nat :: s < |media| && s != winsect ==> media[s] == old(media)[s]
      ensures faults == old(faults) ==>
                g.volbase + 1 < |media| && InfoHolds(media[g.volbase + 1], freeClust, lastClust)
    {
      hide *;
      CleanFacts();
      MirroredIs();
      FsInfoPlace(g);
      ghost var seen, m := View(), media;
      FsInfoIs(freeClust, lastClust);
      var info := FsInfo(freeClust, lastClust);
      forall i | 0 <= i < win.Length { win[i] := info[i]; }
      winsect := g.volbase + 1;
      assert win[..] == info;
      var ok := DiskWrite(winsect, win[..]);
      fsiFlag := 0;
      FsInfoOnly(seen, m);
    }

    lemma MirroredIs()
      requires Mirrored() && g.Valid() && |media| == g.nsect
      ensures equalAtMount && faults == 0 && g.nFats == 2 ==> CopiesEqual(g, media)
    {
    }

    lemma FsInfoOnly(seen: seq<Sector>, m: seq<Sector>)
      requires g.Valid() && win.Length == 512 && g.fsType == FAT32 && winsect == g.volbase + 1 < g.nsect
      requires !g.InFat1(winsect) && !g.InFat2(winsect)
      requires !wflag && |m| == |media| == |base| == g.nsect
      requires forall s: nat :: s < g.nsect && s != winsect ==> media[s] == m[s]
      requires durable == |log| && (forall s :: s in direct ==> g.database <= s)
      requires Agree(g, direct, m, Replay(base, log)) && SameSectors(g, seen, m) && fat == g.Fat(seen)
      requires |seen| == g.nsect && CutsOf(g, base, log, cuts)
      requires equalAtMount && faults == 0 && g.nFats == 2 ==> CopiesEqual(g, m)
      ensures Valid() && SameSectors(g, seen, View()) && win[..] == View()[winsect]
    {
      hide Geometry.Fat, Geometry.Entry, Replay, CutsOf;
      assert SameSectors(g, m, media) && SameSectors(g, media, View()) && SameSectors(g, seen, View());
      AgreeKept(g, direct, m, media, Replay(base, log));
      AgreeKept(g, direct, m, View(), Replay(base, log));
      FatKept(g, seen, View());
      assert log[..durable] == log;
    }

    /** The journal takes over a sector that was written without the window, with the contents it has. */
    ghost method Adopt(sect: nat)
      requires Valid() && !wflag && g.database <= sect < g.nsect
      modifies `log, `durable, `direct, `cuts
      ensures Valid() && direct == old(direct) - {sect} && durable == |log| && cuts == old(cuts) + [fat]
    {
      hide *;
      CleanFacts();
      var p, l0 := Patch(sect, 0, media[sect]), log;
      Adopted(g, direct, media, Replay(base, log), p);
      CutsAppend(g, base, log, cuts, p);
      AppendReplay(base, log, p);
      log := log + [p];
      durable := |log|;
      direct := direct - {sect};
      FatOfAgree(g, direct, media, Replay(base, log));
      FatKept(g, View(), media);
      cuts := cuts + [g.Fat(Replay(base, log))];
      AdoptedValid();
    }

    lemma AdoptedValid()
      requires g.Valid() && win.Length == 512 && |media| == |base| == |View()| == g.nsect && !wflag && Shape()
      requires Mirrored()
      requires durable == |log| && (forall s :: s in direct ==> g.database <= s) && SameSectors(g, View(), media)
      requires Agree(g, direct, media, Replay(base, log)) && fat == g.Fat(View()) && CutsOf(g, base, log, cuts)
      ensures Valid()
    {
      hide Replay, CutsOf, Geometry.Fat, CopiesEqual;
      assert log[..durable] == log;
    }

    /** The clean window cleared and put onto a data sector, which makes it dirty. */
    method ClearOnto(sect: nat)
      requires Valid() && !wflag && g.database <= sect < g.nsect
      modifies `winsect, `wflag, `log, `fat, `cuts, win
      ensures Valid() && wflag && winsect == sect && fat == old(fat) && cuts == old(cuts) + [fat] && win[..] == Zeros()
      ensures sect < |old(View())| && SameSectors(g, old(View())[sect := Zeros()], View())
    {
      hide *;
      CleanFacts();
      ghost var seen, l0, v := View(), log, media[sect := Zeros()];
      forall i | 0 <= i < win.Length { win[i] := 0; }
      winsect := sect;
      wflag := true;
      ghost var p := Patch(sect, 0, Zeros());
      ClearIs(media, sect);
      JournalAppend(g, direct, base, log, media, p);
      CutsAppend(g, base, log, cuts, p);
      log := log + [p];
      WindowOver(sect);
      FatOfAgree(g, direct, v, Replay(base, log));
      fat := g.Fat(v);
      cuts := cuts + [fat];
      ClearedFat(seen, media, sect);
      ClearedValid(l0, p);
    }

    /** Name the clean window after another sector that holds the same bytes. */
    method Relabel(sect: nat)
      requires Valid() && !wflag && sect < g.nsect && !g.InFat2(sect) && sect < |media| && media[sect] == win[..]
      modifies `winsect
      ensures Valid() && winsect == sect && SameSectors(g, old(View()), View())
    {
      hide Geometry.Fat, Geometry.Entry, Replay, CopiesEqual;
      ghost var seen := View();
      winsect := sect;
      assert View() == media;
      AgreeKept(g, direct, seen, media, Replay(base, log));
      FatKept(g, seen, View());
    }

    lemma CleanFacts()
      requires Valid() && !wflag
      ensures Shape()
      ensures g.Valid() && win.Length == 512 && |media| == |base| == |View()| == g.nsect <= ALL_ONES
      ensures durable == |log| && (forall s :: s in direct ==> g.database <= s) && Mirrored()
      ensures Agree(g, direct, media, Replay(base, log)) && SameSectors(g, View(), media)
      ensures fat == g.Fat(View()) && CutsOf(g, base, log, cuts)
    {
      hide Agree, Replay, CutsOf, Geometry.Fat, CopiesEqual;
      assert log[..durable] == log;
    }

    /** The window shows its own contents on its sector, and the drive elsewhere. */
    lemma WindowOver(sect: nat)
      requires winsect == sect < |media| && win.Length == 512 && forall i :: 0 <= i < 512 ==> win[i] == 0
      ensures win[..] == Zeros() && View() == media[sect := Zeros()]
    {
    }

    lemma ClearedFat(seen: seq<Sector>, m: seq<Sector>, sect: nat)
      requires g.Valid() && |m| == g.nsect && g.database <= sect < g.nsect && SameSectors(g, seen, m)
      ensures g.Fat(m[sect := Zeros()]) == g.Fat(seen) && SameSectors(g, seen[sect := Zeros()], m[sect := Zeros()])
    {
      hide Geometry.Fat, Zeros;
      FatDependsOnFat1(g, seen, m[sect := Zeros()]);
    }

    lemma ClearedValid(l0: seq<Patch>, p: Patch)
      requires g.Valid() && win.Length == 512 && |media| == |base| == g.nsect && g.database <= winsect < g.nsect
      requires wflag
      requires log == l0 + [p] && p.sector == winsect && durable == |l0|
      requires (forall s :: s in direct ==> g.database <= s) && Mirrored()
      requires Agree(g, direct, media, Replay(base, l0)) && Agree(g, direct, View(), Replay(base, log))
      requires fat == g.Fat(View()) && CutsOf(g, base, log, cuts)
      ensures Valid()
    {
      hide Agree, Replay, CutsOf, Geometry.Fat, CopiesEqual;
      assert log[..durable] == l0;
    }

    lemma NowIs()
      ensures Now() == Snapshot(View(), media, winsect, direct)
    {
    }

    lemma CountsFit()
      ensures freeClust <= ALL_ONES == 0xFFFF_FFFF && lastClust <= ALL_ONES
    {
    }

    /** The part of validity that the rest relies on. */
    lemma Facts()
      requires Valid()
      ensures g.Valid() && win.Length == 512 && |media| == |View()| == g.nsect
      ensures 3 <= g.nFatent < 0x1000_0000 < ALL_ONES
      ensures fat == g.Fat(View()) && |fat| == g.nFatent
      ensures winsect < g.nsect ==> View()[winsect] == win[..]
      ensures Now() == Snapshot(View(), media, winsect, direct) && FatStep(g, Now(), Now())
    {
    }

    /** The `n` bytes from byte `o` of the FAT on, all in one sector. */
    method PeekFat(o: nat, n: nat) returns (res: FResult, p: seq<byte>)
      requires Valid() && o + n <= g.fsize * 512 && (n == 1 || ((n == 2 || n == 4) && o % n == 0))
      modifies `winsect, `wflag, `media, `durable, `faults, win
      ensures Valid() && FatStep(g, old(Now()), Now()) && SameSectors(g, old(View()), View()) && faults >= old(faults)
      ensures g.Valid() && |View()| == g.nsect
      ensures res == FR_OK ==> winsect == g.fatbase + o / 512 < g.nsect && o % 512 + n <= 512
      ensures res == FR_OK ==> |p| == n && BytesAt(g, View(), o, p)
      ensures res != FR_OK ==> res == FR_DISK_ERR && faults > old(faults)
    {
      Facts();
      g.FatSector(o);
      hide *;
      res := MoveWindow(g.fatbase + o / 512);
      Facts();
      p := [];
      if res == FR_OK {
        SliceOfFat(g, View(), o, n);
        p := win[o % 512..o % 512 + n];
      }
    }

    /** The two bytes of a FAT12 entry, which may lie in two sectors. */
    method PeekPair(bc: nat) returns (res: FResult, p: seq<byte>)
      requires Valid() && bc + 2 <= g.fsize * 512
      modifies `winsect, `wflag, `media, `durable, `faults, win
      ensures Valid() && FatStep(g, old(Now()), Now()) && faults >= old(faults)
      ensures g.Valid() && |View()| == g.nsect
      ensures res == FR_OK ==> |p| == 2 && BytesAt(g, View(), bc, p)
      ensures res != FR_OK ==> faults > old(faults)
    {
      hide *;
      Facts();
      res, p := PeekFat(bc, 1);
      if res == FR_OK {
        ghost var mid := Now();
        Facts();
        var hi;
        res, hi := PeekFat(bc + 1, 1);
        Facts();
        FatStepTrans(g, old(Now()), mid, Now());
        if res == FR_OK {
          BytesSame(g, mid.view, View(), bc, p);
          BytesJoin(g, View(), bc, p, hi);
          p := p + hi;
        }
      }
    }

    /** The bytes of entry `clst`. */
    method PeekEntry(clst: nat) returns (res: FResult, p: seq<byte>)
      requires Valid() && clst < g.nFatent
      modifies `winsect, `wflag, `media, `durable, `faults, win
      ensures Valid() && FatStep(g, old(Now()), Now()) && faults >= old(faults)
      ensures g.Valid() && |View()| == g.nsect
      ensures res == FR_OK ==> |p| == g.EntryBytes() && BytesAt(g, View(), g.EntryOff(clst), p)
      ensures res != FR_OK ==> faults > old(faults)
    {
      hide *;
      Facts();
      g.EntryFits(clst);
      match g.fsType {
        case FAT12 => res, p := PeekPair(clst + clst / 2);
        case FAT16 => res, p := PeekFat(clst * 2, 2);
        case FAT32 => res, p := PeekFat(clst * 4, 4);
      }
    }

    method GetFat(clst: nat) returns (val: nat)
      requires Valid()
      modifies `winsect, `wflag, `media, `durable, `faults, win
      ensures Valid() && FatStep(g, old(Now()), Now()) && faults >= old(faults)
      ensures |fat| == g.nFatent
      ensures val == ALL_ONES ==> faults > old(faults)
      ensures val != ALL_ONES ==> val == if 2 <= clst < g.nFatent then fat[clst] else 1
      ensures val != ALL_ONES && 2 <= clst < g.nFatent ==>
                g.Valid() && |View()| == g.nsect && Encodes(g, View(), clst, val)
    {
      hide *;
      Facts();
      if clst < 2 || clst >= g.nFatent {
        val := 1;
      } else {
        val := ALL_ONES;
        var res, p := PeekEntry(clst);
        Facts();
        if res == FR_OK {
          EntryIsEncoded(g, View(), clst);
          val := Decode(g, View(), clst, p);
        }
      }
    }

    /** Bytes stored at byte `o` of the FAT, which is in the window. */
    method PokeFat(o: nat, data: seq<byte>)
      requires Valid() && o < g.fsize * 512 && o + |data| <= g.fsize * 512 && o % 512 + |data| <= 512
      requires winsect == g.fatbase + o / 512 < g.nsect
      modifies `wflag, `log, `fat, `cuts, win
      ensures Valid() && FatStep(g, old(Now()), Now())
      ensures g.Valid() && |old(View())| == |View()| == g.nsect && FatPatched(g, old(View()), View(), o, data)
      ensures fat == g.Fat(View()) && cuts == old(cuts) + [fat]
    {
      hide *;
      Facts();
      g.FatSector(o);
      Store(o % 512, data);
      Facts();
      PatchFatBytes(g, old(View()), o, data);
      StoreStep(g, old(Now()), Now(), Patch(winsect, o % 512, data));
    }

    method PutFat(clst: nat, val: nat) returns (res: FResult)
      requires Valid() && val < 0x1000_0000
      modifies `winsect, `wflag, `media, `durable, `faults, `log, `fat, `cuts, win
      ensures Valid() && FatStep(g, old(Now()), Now()) && faults >= old(faults) && |fat| == |old(fat)| == g.nFatent
      ensures res == FR_INT_ERR <==> clst < 2 || clst >= g.nFatent
      ensures res == FR_INT_ERR ==> fat == old(fat) && cuts == old(cuts)
      ensures res == FR_OK ==> fat == old(fat)[clst := g.Kept(val)] && (g.fsType != FAT12 ==> cuts == old(cuts) + [fat])
      ensures res != FR_OK && res != FR_INT_ERR ==>
                res == FR_DISK_ERR && faults > old(faults) && OnlyAt(old(fat), fat, clst)
      ensures res == FR_DISK_ERR && g.fsType != FAT12 ==> fat == old(fat) && cuts == old(cuts)
      ensures res == FR_OK ==> g.Valid() && |View()| == g.nsect && clst < g.nFatent
                               && Encodes(g, View(), clst, match g.fsType
                                                           case FAT12 => val % 0x1000
                                                           case FAT16 => val % 0x1_0000
                                                           case FAT32 => val)
    {
      g.KeptIs(val);
      hide *;
      Facts();
      if clst < 2 || clst >= g.nFatent {
        res := FR_INT_ERR;
      } else {
        OnlyAtIntro(fat, fat, clst);
        match g.fsType {
          case FAT12 => res := PutFat12(clst, val);
          case FAT16 => res := PutFat16(clst, val);
          case FAT32 => res := PutFat32(clst, val);
        }
        Facts();
        EntryIsEncoded(g, View(), clst);
      }
    }

    /** The first half of a FAT12 store: the byte at `bc`; `v0` is the view it changes. */
    method PutLow12(clst: nat, val: nat, bc: nat) returns (res: FResult, ghost v0: seq<Sector>)
      requires Valid() && bc < g.fsize * 512
      modifies `winsect, `wflag, `media, `durable, `faults, `log, `fat, `cuts, win
      ensures Valid() && FatStep(g, old(Now()), Now()) && faults >= old(faults)
      ensures g.Valid() && |v0| == |View()| == g.nsect && g.Fat(v0) == old(fat)
      ensures res == FR_OK ==> FatPatched(g, v0, View(), bc, [Lo12(clst, val, g.FatByte(v0, bc))])
      ensures res != FR_OK ==> res == FR_DISK_ERR && faults > old(faults) && fat == old(fat)
    {
      hide *;
      Facts();
      var p;
      res, p := PeekFat(bc, 1);
      Facts();
      v0 := View();
      if res == FR_OK {
        ghost var s0 := Now();
        assert p[0] == g.FatByte(v0, bc) by { OneByte(g, v0, bc, p); }
        PokeFat(bc, [Lo12(clst, val, p[0])]);
        FatStepTrans(g, old(Now()), s0, Now());
      }
    }

    /** The second half: the byte at `bc` + 1; `v1` is the view it changes. */
    method PutHigh12(clst: nat, val: nat, bc: nat) returns (res: FResult, ghost v1: seq<Sector>)
      requires Valid() && bc + 1 < g.fsize * 512
      modifies `winsect, `wflag, `media, `durable, `faults, `log, `fat, `cuts, win
      ensures Valid() && FatStep(g, old(Now()), Now()) && faults >= old(faults)
      ensures g.Valid() && |v1| == |View()| == g.nsect && SameSectors(g, old(View()), v1)
      ensures res == FR_OK ==> FatPatched(g, v1, View(), bc + 1, [Hi12(clst, val, g.FatByte(v1, bc + 1))])
      ensures res != FR_OK ==> res == FR_DISK_ERR && faults > old(faults) && fat == old(fat)
    {
      hide *;
      Facts();
      var p;
      res, p := PeekFat(bc + 1, 1);
      Facts();
      v1 := View();
      if res == FR_OK {
        ghost var s0 := Now();
        assert p[0] == g.FatByte(v1, bc + 1) by { OneByte(g, v1, bc + 1, p); }
        PokeFat(bc + 1, [Hi12(clst, val, p[0])]);
        FatStepTrans(g, old(Now()), s0, Now());
      }
    }

    method PutFat12(clst: nat, val: nat) returns (res: FResult)
      requires Valid() && clst < g.nFatent && g.fsType == FAT12
      modifies `winsect, `wflag, `media, `durable, `faults, `log, `fat, `cuts, win
      ensures Valid() && FatStep(g, old(Now()), Now()) && faults >= old(faults) && |fat| == |old(fat)| == g.nFatent
      ensures res == FR_OK ==> fat == old(fat)[clst := g.Kept(val)]
      ensures res != FR_OK ==> res == FR_DISK_ERR && faults > old(faults) && OnlyAt(old(fat), fat, clst)
    {
      hide *;
      Facts();
      g.EntryFits(clst);
      var bc := clst + clst / 2;
      OnlyAtIntro(fat, fat, clst);
      ghost var v0, v1;
      res, v0 := PutLow12(clst, val, bc);
      Facts();
      if res == FR_OK {
        ghost var s1, f1 := Now(), fat;
        ghost var va := View();
        res, v1 := PutHigh12(clst, val, bc);
        Facts();
        FatStepTrans(g, old(Now()), s1, Now());
        Half12(g, v0, va, clst, val);
        OnlyAtIntro(old(fat), f1, clst);
        if res == FR_OK {
          PatchedSame(g, v0, va, v1, bc, [Lo12(clst, val, g.FatByte(v0, bc))]);
          Store12(g, v0, v1, View(), clst, val);
        }
      }
    }

    method PutFat16(clst: nat, val: nat) returns (res: FResult)
      requires Valid() && clst < g.nFatent && g.fsType == FAT16
      modifies `winsect, `wflag, `media, `durable, `faults, `log, `fat, `cuts, win
      ensures Valid() && FatStep(g, old(Now()), Now()) && faults >= old(faults) && |fat| == |old(fat)| == g.nFatent
      ensures res == FR_OK ==> fat == old(fat)[clst := g.Kept(val)] && cuts == old(cuts) + [fat]
      ensures res != FR_OK ==> res == FR_DISK_ERR && faults > old(faults) && fat == old(fat) && cuts == old(cuts)
    {
      hide *;
      Facts();
      g.EntryFits(clst);
      var p;
      res, p := PeekFat(clst * 2, 2);
      Facts();
      if res == FR_OK {
        ghost var s0, v0 := Now(), View();
        PokeFat(clst * 2, StWord(val));
        Facts();
        FatStepTrans(g, old(Now()), s0, Now());
        Store16(g, v0, View(), clst, val);
      }
    }

    method PutFat32(clst: nat, val: nat) returns (res: FResult)
      requires Valid() && clst < g.nFatent && g.fsType == FAT32 && val < 0x1000_0000
      modifies `winsect, `wflag, `media, `durable, `faults, `log, `fat, `cuts, win
      ensures Valid() && FatStep(g, old(Now()), Now()) && faults >= old(faults) && |fat| == |old(fat)| == g.nFatent
      ensures res == FR_OK ==> fat == old(fat)[clst := val] && cuts == old(cuts) + [fat]
      ensures res != FR_OK ==> res == FR_DISK_ERR && faults > old(faults) && fat == old(fat) && cuts == old(cuts)
    {
      hide *;
      Facts();
      g.EntryFits(clst);
      var p;
      res, p := PeekFat(clst * 4, 4);
      Facts();
      if res == FR_OK {
        ghost var s0, v0 := Now(), View();
        var data := Merge32(val, p[3]);
        PokeFat(clst * 4, data);
        Facts();
        FatStepTrans(g, old(Now()), s0, Now());
        Store32(g, v0, View(), clst, data);
      }
    }

    /** Read one sector into a buffer other than the window. */
    method ReadData(buff: array<byte>, sector: nat) returns (ok: bool)
      requires Valid() && buff.Length == 512 && buff != win
      modifies buff, `faults
      ensures Valid()
      ensures ok ==> sector < |media| && buff[..] == media[sector] && faults == old(faults)
      ensures !ok ==> faults > old(faults)
    {
      hide CopiesEqual, Agree, Replay, CutsOf, Geometry.Fat;
      ok := DiskRead(buff, sector);
    }

    /** Read `cc` consecutive sectors straight into the caller's memory. */
    method ReadSectors(sect: nat, cc: nat) returns (ok: bool, data: seq<byte>)
      requires Valid()
      modifies `faults
      ensures Valid()
      ensures ok ==> sect + cc <= |media| && |data| == 512 * cc && faults == old(faults)
      ensures ok ==> forall k :: 0 <= k < cc ==> data[512 * k..512 * k + 512] == media[sect + k]
      ensures !ok ==> faults > old(faults)
    {
      hide CopiesEqual, Agree, Replay, CutsOf, Geometry.Fat;
      data := [];
      ok := *;
      ok := ok && sect + cc <= |media|;
      if ok {
        for i := 0 to cc
          invariant Valid() && faults == old(faults) && |data| == 512 * i
          invariant forall k :: 0 <= k < i ==> data[512 * k..512 * k + 512] == media[sect + k]
        {
          AppendBlock(media, sect, i, data, media[sect + i]);
          data := data + media[sect + i];
        }
      } else {
        faults := faults + 1;
      }
    }

    /** Write one data sector without the window. */
    method WriteData(sect: nat, data: Sector) returns (ok: bool)
      requires Valid() && g.database <= sect && sect != winsect
      modifies `media, `faults, `direct
      ensures Valid()
      ensures ok ==> sect < |old(media)| && media == old(media)[sect := data] && faults == old(faults)
      ensures !ok ==> media == old(media) && faults > old(faults)
      ensures DataStep(sect, 1, old(Now()), Now())
    {
      hide Geometry.Fat, Geometry.Entry, Replay, CutsOf;
      ghost var seen := View();
      ok := DiskWrite(sect, data);
      if ok {
        direct := direct + {sect};
        FatDependsOnFat1(g, seen, View());
      }
    }

    /** Write `cc` consecutive data sectors straight from the caller's memory. */
    method WriteSectors(sect: nat, cc: nat, data: seq<byte>) returns (ok: bool)
      requires Valid() && g.database <= sect && |data| == 512 * cc && !(sect <= winsect < sect + cc)
      modifies `media, `faults, `direct
      ensures Valid() && faults >= old(faults) && (!ok ==> faults > old(faults))
      ensures ok ==> Sent(old(media), media, sect, cc, data)
      ensures DataStep(sect, cc, old(Now()), Now())
    {
      hide FatFs.Valid, FatFs.View, DataStep;
      DataStepSelf(sect, cc, Now());
      ok := true;
      var i := 0;
      if sect + cc > |media| {
        ok := false;
        Fault();
      }
      while i < cc && ok
        invariant i <= cc && Valid() && faults >= old(faults) && (!ok ==> faults > old(faults))
        invariant ok ==> |media| == |old(media)| && sect + cc <= |media|
        invariant ok ==> forall k :: 0 <= k < i ==> media[sect + k] == data[512 * k..512 * k + 512]
        invariant ok ==> forall x: nat :: x < |media| && !(sect <= x < sect + i) ==> media[x] == old(media)[x]
        invariant DataStep(sect, cc, old(Now()), Now())
        decreases cc - i, ok
      {
        ghost var a := Now();
        ok := WriteData(sect + i, data[512 * i..512 * i + 512]);
        DataStepTrans(sect, cc, i, old(Now()), a, Now());
        if ok { i := i + 1; }
      }
    }

    /** A transfer that the drive refuses. */
    method Fault()
      requires Valid()
      modifies `faults
      ensures Valid() && faults == old(faults) + 1
    {
      hide CopiesEqual, Agree, Replay, CutsOf, Geometry.Fat;
      faults := faults + 1;
    }
  }
}
