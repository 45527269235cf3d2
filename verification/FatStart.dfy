/** A volume as mounting finds it. What a consistency check can tell from the FAT and the directories alone
    is enough for the invariant of all later runs. */
module FatStart {
  import opened Bytes
  import opened FatEntry
  import opened FatVolume
  import opened FatHeap
  import opened FatChain
  import opened FatData
  import opened FatFileState
  import opened FatApart
  import opened FatDirState
  import opened FatOpen
  import opened FatHolders
  import opened FatWorld
  import opened FatShows
  import M = FatModel

  /** Nothing, or an allocated cluster that nothing links to. */
  ghost predicate Starting(f: seq<nat>, head: nat) {
    head == 0 || (2 <= head < |f| && f[head] != 0 && Unlinked(f, head))
  }

  /** The chain from a first cluster on. */
  ghost function ChainFrom(f: seq<nat>, head: nat): (ch: seq<nat>)
    requires HeapOK(f) && Starting(f, head)
    ensures Starts(f, head, ch)
  {
    hide *;
    assert exists ch :: Starts(f, head, ch) by {
      StartingIs(f, head);
      var ch := StartsExists(f, head);
    }
    var ch :| Starts(f, head, ch);
    ch
  }

  lemma StartingIs(f: seq<nat>, head: nat)
    ensures Starting(f, head) <==> head == 0 || (2 <= head < |f| && f[head] != 0 && Unlinked(f, head))
  {
  }

  lemma StartsIs(g: Geometry, f: seq<nat>, head: nat, ch: seq<nat>)
    requires Starts(f, head, ch) && |f| == g.nFatent
    ensures Clusters(g, ch) && (head == 0 <==> ch == [])
    ensures ch != [] ==> IsChain(f, ch) && ch[0] == head && Unlinked(f, head)
  {
    hide Unlinked;
  }

  /** The directory tables as they stand on the drive. */
  ghost function TablesAt(g: Geometry, f: seq<nat>, media: seq<Sector>, starts: seq<nat>): (tabs: seq<seq<Slot>>)
    requires Readable(g, f, media, starts)
    ensures |tabs| == |starts|
  {
    seq(|starts|, k requires 0 <= k < |starts| => TableFrom(g, f, media, starts[k]))
  }

  ghost function TableFrom(g: Geometry, f: seq<nat>, media: seq<Sector>, start: nat): seq<Slot>
    requires DataFits(g) && |f| == g.nFatent && |media| == g.nsect && HeapOK(f) && DirStarts(g, f, start)
  {
    hide *;
    DirChain(g, f, start);
    TableSectorsIn(g, f, start, ChainFrom(f, StartOf(g, start)), media);
    Slots(media, TableSecs(g, ChainFrom(f, StartOf(g, start))))
  }

  /** A directory starts in an allocated cluster, or is the fixed root directory. */
  ghost predicate DirStarts(g: Geometry, f: seq<nat>, start: nat) {
    Starting(f, StartOf(g, start)) && (StartOf(g, start) == 0 ==> RootFits(g))
  }

  /** A well-formed FAT, and directories that start somewhere. */
  ghost predicate Readable(g: Geometry, f: seq<nat>, media: seq<Sector>, starts: seq<nat>) {
    && DataFits(g) && |f| == g.nFatent && |media| == g.nsect && HeapOK(f)
    && forall k :: 0 <= k < |starts| ==> DirStarts(g, f, starts[k])
  }

  lemma DirChain(g: Geometry, f: seq<nat>, start: nat)
    requires DataFits(g) && |f| == g.nFatent && HeapOK(f) && DirStarts(g, f, start)
    ensures Starting(f, StartOf(g, start)) && TableOK(g, f, start, ChainFrom(f, StartOf(g, start)))
    ensures Clusters(g, ChainFrom(f, StartOf(g, start)))
  {
    StartsIs(g, f, StartOf(g, start), ChainFrom(f, StartOf(g, start)));
    hide Starting, HeapOK, IsChain, RootFits, DataFits, Clusters, StartOf;
  }

  // ---------- Who starts where ----------

  ghost function Owners(tabs: seq<seq<Slot>>): set<Owner> {
    (set k: nat | k < |tabs| :: OfDir(k))
    + (set k: nat, i: nat | k < |tabs| && i < |tabs[k]| && Regular(tabs[k][i]) :: OfFile(k, i))
  }

  lemma OwnersAre(tabs: seq<seq<Slot>>, o: Owner)
    ensures o in Owners(tabs)
          <==> o.dir < |tabs| && (o.OfFile? ==> o.slot < |tabs[o.dir]| && Regular(tabs[o.dir][o.slot]))
  {
    hide Regular;
  }

  ghost function HeadOf(g: Geometry, starts: seq<nat>, tabs: seq<seq<Slot>>, o: Owner): nat {
    if o.OfFile? then ClusterIn(g, SlotOf(tabs, o)) else if o.dir < |starts| then StartOf(g, starts[o.dir]) else 0
  }

  /** No two of them start in the same cluster, there is at most one fixed root directory, every directory
      is in order, and no file is longer than its chain. */
  ghost predicate Checked(g: Geometry, f: seq<nat>, starts: seq<nat>, tabs: seq<seq<Slot>>)
    requires HeapOK(f)
  {
    && |tabs| == |starts|
    && (forall k :: 0 <= k < |tabs| ==> DirOK(tabs[k]))
    && (forall o :: o in Owners(tabs) ==> Starting(f, HeadOf(g, starts, tabs, o)))
    && (forall o, p ::
          o in Owners(tabs) && p in Owners(tabs) && o != p ==>
            || HeadOf(g, starts, tabs, o) != HeadOf(g, starts, tabs, p)
            || (HeadOf(g, starts, tabs, o) == 0 && (o.OfFile? || p.OfFile?)))
    && forall o :: o in Owners(tabs) && o.OfFile? ==>
         EntrySize(SlotOf(tabs, o)) <= 512 * Times(|ChainFrom(f, HeadOf(g, starts, tabs, o))|, g.csize)
  }

  ghost function OwnAt(g: Geometry, f: seq<nat>, starts: seq<nat>, tabs: seq<seq<Slot>>): map<Owner, seq<nat>>
    requires HeapOK(f) && Checked(g, f, starts, tabs)
  {
    map o | o in Owners(tabs) :: ChainFrom(f, HeadOf(g, starts, tabs, o))
  }

  lemma OwnIs(g: Geometry, f: seq<nat>, starts: seq<nat>, tabs: seq<seq<Slot>>, o: Owner)
    requires HeapOK(f) && Checked(g, f, starts, tabs)
    ensures o in OwnAt(g, f, starts, tabs) <==> o in Owners(tabs)
    ensures o in Owners(tabs) ==> Starting(f, HeadOf(g, starts, tabs, o))
                                  && OwnAt(g, f, starts, tabs)[o] == ChainFrom(f, HeadOf(g, starts, tabs, o))
                                  && Starts(f, HeadOf(g, starts, tabs, o), OwnAt(g, f, starts, tabs)[o])
    ensures o in Owners(tabs) && o.OfFile? ==>
              EntrySize(SlotOf(tabs, o)) <= 512 * Times(|OwnAt(g, f, starts, tabs)[o]|, g.csize)
  {
    hide HeapOK, Starting, HeadOf, Owners, Starts, ChainFrom, EntrySize, SlotOf, DirOK;
  }

  lemma HeadsDiffer(g: Geometry, f: seq<nat>, starts: seq<nat>, tabs: seq<seq<Slot>>, o: Owner, p: Owner)
    requires HeapOK(f) && Checked(g, f, starts, tabs) && o in Owners(tabs) && p in Owners(tabs) && o != p
    ensures HeadOf(g, starts, tabs, o) == HeadOf(g, starts, tabs, p) ==>
              HeadOf(g, starts, tabs, o) == 0 && (o.OfFile? || p.OfFile?)
  {
    hide HeapOK, Starting, HeadOf, Owners, ChainFrom, EntrySize, SlotOf, DirOK;
  }

  /** Nobody holds a cluster of somebody else. */
  lemma OwnersHeld(g: Geometry, f: seq<nat>, starts: seq<nat>, tabs: seq<seq<Slot>>)
    requires HeapOK(f) && |f| == g.nFatent && Checked(g, f, starts, tabs)
    ensures Held(f, OwnAt(g, f, starts, tabs))
  {
    hide *;
    var own := OwnAt(g, f, starts, tabs);
    forall o | o in own ensures own[o] != [] ==> IsChain(f, own[o]) && Unlinked(f, own[o][0]) {
      OwnIs(g, f, starts, tabs, o);
      StartsIs(g, f, HeadOf(g, starts, tabs, o), own[o]);
    }
    forall o, p | o in own && p in own && o != p ensures NoneShared(own[o], own[p]) {
      OwnIs(g, f, starts, tabs, o);
      OwnIs(g, f, starts, tabs, p);
      HeadsDiffer(g, f, starts, tabs, o, p);
      StartsApart(g, f, HeadOf(g, starts, tabs, o), own[o], HeadOf(g, starts, tabs, p), own[p]);
    }
    HeldIntro(f, own);
  }

  lemma StartsApart(g: Geometry, f: seq<nat>, h: nat, a: seq<nat>, k: nat, b: seq<nat>)
    requires HeapOK(f) && |f| == g.nFatent && Starts(f, h, a) && Starts(f, k, b) && (h == k ==> h == 0)
    ensures NoneShared(a, b)
  {
    hide *;
    StartsIs(g, f, h, a);
    StartsIs(g, f, k, b);
    if a != [] && b != [] { ChainsDisjoint(f, a, b); }
    NoneSharedIntro(a, b);
  }

  lemma NoneSharedIntro(a: seq<nat>, b: seq<nat>)
    requires a == [] || b == [] || forall c :: c in a ==> c !in b
    ensures NoneShared(a, b)
  {
  }

  lemma HeldIntro(f: seq<nat>, own: map<Owner, seq<nat>>)
    requires HeapOK(f) && forall o :: o in own && own[o] != [] ==> IsChain(f, own[o]) && Unlinked(f, own[o][0])
    requires forall o, p :: o in own && p in own && o != p ==> NoneShared(own[o], own[p])
    ensures Held(f, own)
  {
    hide HeapOK, IsChain, Unlinked, NoneShared;
  }

  // ---------- The volume and its world ----------

  ghost function VolAt(g: Geometry, f: seq<nat>, media: seq<Sector>, winsect: nat, starts: seq<nat>): Vol
    requires Readable(g, f, media, starts) && Checked(g, f, starts, TablesAt(g, f, media, starts))
  {
    var tabs := TablesAt(g, f, media, starts);
    Vol(f, Snapshot(media, media, winsect, {}), OwnAt(g, f, starts, tabs), tabs)
  }

  /** What an entry stands for: a directory, or as many bytes of its chain as its size says. */
  ghost function ItemAt(g: Geometry, f: seq<nat>, media: seq<Sector>, e: Slot): M.Item
    requires HeapOK(f) && (!FatOpen.Folder(e) ==> Starting(f, ClusterIn(g, e)))
  {
    if FatOpen.Folder(e) then M.Subdir else M.Plain(Dormant(g, media, ChainFrom(f, ClusterIn(g, e)), EntrySize(e)),
                                                    ReadOnly(e))
  }

  ghost predicate ItemsStart(g: Geometry, f: seq<nat>, slots: seq<Slot>) {
    forall i :: 0 <= i < |slots| && Regular(slots[i]) ==> Starting(f, ClusterIn(g, slots[i]))
  }

  ghost function DirAt(g: Geometry, f: seq<nat>, media: seq<Sector>, slots: seq<Slot>): map<seq<byte>, M.Item>
    requires HeapOK(f) && DirOK(slots) && ItemsStart(g, f, slots)
  {
    NamesStart(g, f, slots);
    map n | n in Bindings(slots) :: ItemAt(g, f, media, Bindings(slots)[n])
  }

  lemma NamesStart(g: Geometry, f: seq<nat>, slots: seq<Slot>)
    requires DirOK(slots) && ItemsStart(g, f, slots)
    ensures forall n :: n in Bindings(slots) && !FatOpen.Folder(Bindings(slots)[n]) ==>
              Starting(f, ClusterIn(g, Bindings(slots)[n]))
  {
    BindingsIs(slots);
    hide Bindings, Live, Name, Starting, ClusterIn, FatOpen.Folder, Unique, EndsAtZero, InReach;
  }

  lemma FilesStart(g: Geometry, f: seq<nat>, starts: seq<nat>, tabs: seq<seq<Slot>>, k: nat)
    requires HeapOK(f) && Checked(g, f, starts, tabs) && k < |tabs|
    ensures DirOK(tabs[k]) && ItemsStart(g, f, tabs[k])
  {
    hide HeapOK, DirOK, Owners, Starting, ChainFrom, EntrySize, ClusterIn, Regular;
    forall i | 0 <= i < |tabs[k]| && Regular(tabs[k][i]) ensures Starting(f, ClusterIn(g, tabs[k][i])) {
      OwnersAre(tabs, OfFile(k, i));
      assert HeadOf(g, starts, tabs, OfFile(k, i)) == ClusterIn(g, tabs[k][i]);
    }
  }

  ghost function WorldAt(g: Geometry, f: seq<nat>, media: seq<Sector>, starts: seq<nat>): M.World
    requires Readable(g, f, media, starts) && Checked(g, f, starts, TablesAt(g, f, media, starts))
  {
    var tabs := TablesAt(g, f, media, starts);
    M.World(seq(|tabs|, k requires 0 <= k < |tabs| => FilesStart(g, f, starts, tabs, k); DirAt(g, f, media, tabs[k])),
            [], NoneFree(f))
  }

  lemma TablesIs(g: Geometry, f: seq<nat>, media: seq<Sector>, starts: seq<nat>, k: nat)
    requires Readable(g, f, media, starts) && k < |starts|
    ensures DirStarts(g, f, starts[k]) && TablesAt(g, f, media, starts)[k] == TableFrom(g, f, media, starts[k])
  {
    hide DirStarts, TableFrom, HeapOK, DataFits;
  }

  lemma TableFromIs(g: Geometry, f: seq<nat>, media: seq<Sector>, start: nat)
    requires DataFits(g) && |f| == g.nFatent && |media| == g.nsect && HeapOK(f) && DirStarts(g, f, start)
    ensures var ch := ChainFrom(f, StartOf(g, start));
            && Starting(f, StartOf(g, start)) && TableOK(g, f, start, ch) && Clusters(g, ch)
            && SectorsIn(media, TableSecs(g, ch))
            && TableFrom(g, f, media, start) == Slots(media, TableSecs(g, ch))
  {
    hide DirStarts, Starting, TableOK, HeapOK, DataFits, ChainFrom, StartOf, Slots, TableSecs, Clusters, SectorsIn;
    DirChain(g, f, start);
    TableSectorsIn(g, f, start, ChainFrom(f, StartOf(g, start)), media);
  }

  lemma ReadableIs(g: Geometry, f: seq<nat>, media: seq<Sector>, starts: seq<nat>)
    requires Readable(g, f, media, starts)
    ensures DataFits(g) && g.Valid() && |f| == g.nFatent && |media| == g.nsect && HeapOK(f)
  {
    hide DirStarts, HeapOK;
  }

  lemma VolAtIs(g: Geometry, f: seq<nat>, media: seq<Sector>, winsect: nat, starts: seq<nat>)
    requires Readable(g, f, media, starts) && Checked(g, f, starts, TablesAt(g, f, media, starts))
    ensures HeapOK(f)
    ensures VolAt(g, f, media, winsect, starts) ==
            Vol(f, Snapshot(media, media, winsect, {}), OwnAt(g, f, starts, TablesAt(g, f, media, starts)),
                TablesAt(g, f, media, starts))
  {
    hide HeapOK, Checked, OwnAt, TablesAt, DirStarts, DataFits;
  }

  lemma HeadIs(g: Geometry, starts: seq<nat>, tabs: seq<seq<Slot>>, o: Owner)
    ensures o.OfFile? ==> HeadOf(g, starts, tabs, o) == ClusterIn(g, SlotOf(tabs, o))
    ensures o.OfDir? && o.dir < |starts| ==> HeadOf(g, starts, tabs, o) == StartOf(g, starts[o.dir])
  {
    hide ClusterIn, SlotOf, StartOf;
  }

  /** Every directory is in order. */
  lemma TablesStand(g: Geometry, f: seq<nat>, media: seq<Sector>, winsect: nat, starts: seq<nat>)
    requires Readable(g, f, media, starts) && Checked(g, f, starts, TablesAt(g, f, media, starts))
    ensures TablesOK(g, starts, VolAt(g, f, media, winsect, starts))
  {
    hide *;
    VolAtIs(g, f, media, winsect, starts);
    ReadableIs(g, f, media, starts);
    var v, tabs := VolAt(g, f, media, winsect, starts), TablesAt(g, f, media, starts);
    forall k | 0 <= k < |starts|
      ensures OfDir(k) in v.own && TableAt(g, f, v.snap, starts[k], v.own[OfDir(k)], v.tabs[k])
    {
      DirStands(g, f, media, winsect, starts, k);
    }
    forall k, l | 0 <= k < |starts| && 0 <= l < |starts| && k != l
      ensures v.own[OfDir(k)] != [] || v.own[OfDir(l)] != []
    {
      OwnersAre(tabs, OfDir(k));
      OwnersAre(tabs, OfDir(l));
      OwnIs(g, f, starts, tabs, OfDir(k));
      OwnIs(g, f, starts, tabs, OfDir(l));
      HeadsDiffer(g, f, starts, tabs, OfDir(k), OfDir(l));
      StartsIs(g, f, HeadOf(g, starts, tabs, OfDir(k)), v.own[OfDir(k)]);
      StartsIs(g, f, HeadOf(g, starts, tabs, OfDir(l)), v.own[OfDir(l)]);
    }
    TablesIntro(g, starts, v);
  }

  lemma DirStands(g: Geometry, f: seq<nat>, media: seq<Sector>, winsect: nat, starts: seq<nat>, k: nat)
    requires Readable(g, f, media, starts) && Checked(g, f, starts, TablesAt(g, f, media, starts)) && k < |starts|
    ensures var v := VolAt(g, f, media, winsect, starts);
            |v.tabs| == |starts| && OfDir(k) in v.own && TableAt(g, f, v.snap, starts[k], v.own[OfDir(k)], v.tabs[k])
  {
    hide *;
    VolAtIs(g, f, media, winsect, starts);
    ReadableIs(g, f, media, starts);
    var tabs := TablesAt(g, f, media, starts);
    OwnersAre(tabs, OfDir(k));
    OwnIs(g, f, starts, tabs, OfDir(k));
    HeadIs(g, starts, tabs, OfDir(k));
    TablesIs(g, f, media, starts, k);
    TableFromIs(g, f, media, starts[k]);
    FilesStart(g, f, starts, tabs, k);
    TableAtIntro(g, f, Snapshot(media, media, winsect, {}), starts[k], ChainFrom(f, StartOf(g, starts[k])), tabs[k]);
  }

  /** The files are the regular entries. */
  lemma EntriesStand(g: Geometry, f: seq<nat>, media: seq<Sector>, starts: seq<nat>)
    requires Readable(g, f, media, starts) && Checked(g, f, starts, TablesAt(g, f, media, starts)) && HeapOK(f)
    ensures EntriesOK(g, OwnAt(g, f, starts, TablesAt(g, f, media, starts)), TablesAt(g, f, media, starts), {})
  {
    hide *;
    ReadableIs(g, f, media, starts);
    var tabs := TablesAt(g, f, media, starts);
    var own := OwnAt(g, f, starts, tabs);
    forall o
      ensures o in own <==> o.dir < |tabs| && (o.OfFile? ==> o.slot < |tabs[o.dir]| && Regular(tabs[o.dir][o.slot]))
    {
      OwnersAre(tabs, o);
      OwnIs(g, f, starts, tabs, o);
    }
    forall o | o in own && o.OfFile? ensures Fits(g, SlotOf(tabs, o), own[o]) {
      OwnIs(g, f, starts, tabs, o);
      HeadIs(g, starts, tabs, o);
      StartsIs(g, f, HeadOf(g, starts, tabs, o), own[o]);
      FitsIntro(g, SlotOf(tabs, o), own[o]);
    }
    EntriesIntro(g, own, tabs);
  }

  lemma FitsIntro(g: Geometry, e: Slot, ch: seq<nat>)
    requires ClusterIn(g, e) == (if ch == [] then 0 else ch[0]) && EntrySize(e) <= 512 * Times(|ch|, g.csize)
    ensures Fits(g, e, ch)
  {
  }

  lemma EntriesIntro(g: Geometry, own: map<Owner, seq<nat>>, tabs: seq<seq<Slot>>)
    requires forall o ::
               o in own <==>
                 o.dir < |tabs| && (o.OfFile? ==> o.slot < |tabs[o.dir]| && Regular(tabs[o.dir][o.slot]))
    requires forall o :: o in own && o.OfFile? ==> Fits(g, SlotOf(tabs, o), own[o])
    ensures EntriesOK(g, own, tabs, {})
  {
    hide Regular, Fits, SlotOf;
  }

  /** The window is still in front of the data area. */
  lemma WindowFirst(g: Geometry, f: seq<nat>, own: map<Owner, seq<nat>>, winsect: nat)
    requires DataFits(g) && |f| == g.nFatent && (winsect == ALL_ONES || winsect < g.fatbase)
    ensures WindowClear(g, f, own, winsect)
  {
    hide FileOrFree, DataFits;
    forall c | 2 <= c < |f| ensures !InCluster(g, c, winsect) {
      ClusterRange(g, c, winsect);
      if winsect < g.fatbase { BeforeData(g, c, winsect); }
    }
  }

  lemma BeforeData(g: Geometry, c: nat, x: nat)
    requires DataFits(g) && 2 <= c < g.nFatent && x < g.fatbase
    ensures !InCluster(g, c, x)
  {
    ClusterFits(g, c);
  }

  lemma WorldAtIs(g: Geometry, f: seq<nat>, media: seq<Sector>, starts: seq<nat>, k: nat)
    requires Readable(g, f, media, starts) && Checked(g, f, starts, TablesAt(g, f, media, starts)) && k < |starts|
    ensures HeapOK(f)
    ensures var w, tabs := WorldAt(g, f, media, starts), TablesAt(g, f, media, starts);
            && |w.dirs| == |tabs| == |starts| && DirOK(tabs[k]) && ItemsStart(g, f, tabs[k])
            && w.dirs[k] == DirAt(g, f, media, tabs[k])
  {
    FilesStart(g, f, starts, TablesAt(g, f, media, starts), k);
    hide HeapOK, Checked, TablesAt, DirStarts, DataFits, DirAt, ItemsStart, DirOK, NoneFree;
  }

  lemma WorldSize(g: Geometry, f: seq<nat>, media: seq<Sector>, starts: seq<nat>)
    requires Readable(g, f, media, starts) && Checked(g, f, starts, TablesAt(g, f, media, starts))
    ensures var w := WorldAt(g, f, media, starts); |w.dirs| == |starts| && w.open == [] && w.full == NoneFree(f)
  {
    hide HeapOK, Checked, TablesAt, DirStarts, DataFits, DirAt, ItemsStart, DirOK, NoneFree;
  }

  lemma DirAtIs(g: Geometry, f: seq<nat>, media: seq<Sector>, slots: seq<Slot>)
    requires HeapOK(f) && DirOK(slots) && ItemsStart(g, f, slots)
    ensures DirAt(g, f, media, slots).Keys == Bindings(slots).Keys
    ensures forall i :: 0 <= i < |slots| && Live(slots[i]) ==>
              && (!FatOpen.Folder(slots[i]) ==> Starting(f, ClusterIn(g, slots[i])))
              && Name(slots[i]) in DirAt(g, f, media, slots)
              && DirAt(g, f, media, slots)[Name(slots[i])] == ItemAt(g, f, media, slots[i])
  {
    NamesStart(g, f, slots);
    BindingsIs(slots);
    hide HeapOK, Bindings, Live, Name, Starting, ClusterIn, FatOpen.Folder, Unique, EndsAtZero, InReach, ItemAt;
  }

  /** What a directory shows. */
  lemma DirStandsFor(g: Geometry, f: seq<nat>, media: seq<Sector>, winsect: nat, starts: seq<nat>, k: nat)
    requires Readable(g, f, media, starts) && Checked(g, f, starts, TablesAt(g, f, media, starts)) && k < |starts|
    ensures k < |WorldAt(g, f, media, starts).dirs|
    ensures DirShows(g, VolAt(g, f, media, winsect, starts), {}, k, WorldAt(g, f, media, starts).dirs[k])
  {
    hide *;
    VolAtIs(g, f, media, winsect, starts);
    WorldAtIs(g, f, media, starts, k);
    var v, tabs := VolAt(g, f, media, winsect, starts), TablesAt(g, f, media, starts);
    var dir := WorldAt(g, f, media, starts).dirs[k];
    DirAtIs(g, f, media, tabs[k]);
    forall i | 0 <= i < |tabs[k]| && Live(tabs[k][i])
      ensures ItemShows(g, media, v.own, {}, OfFile(k, i), tabs[k][i], dir[Name(tabs[k][i])])
    {
      ItemStands(g, f, media, starts, k, i);
    }
    DirShowsIntro(g, v, {}, k, dir);
  }

  lemma ItemStands(g: Geometry, f: seq<nat>, media: seq<Sector>, starts: seq<nat>, k: nat, i: nat)
    requires Readable(g, f, media, starts) && Checked(g, f, starts, TablesAt(g, f, media, starts)) && HeapOK(f)
    requires k < |starts| && i < |TablesAt(g, f, media, starts)[k]| && Live(TablesAt(g, f, media, starts)[k][i])
    requires var e := TablesAt(g, f, media, starts)[k][i]; !FatOpen.Folder(e) ==> Starting(f, ClusterIn(g, e))
    ensures var tabs := TablesAt(g, f, media, starts);
            ItemShows(g, media, OwnAt(g, f, starts, tabs), {}, OfFile(k, i), tabs[k][i],
                      ItemAt(g, f, media, tabs[k][i]))
  {
    hide *;
    var tabs := TablesAt(g, f, media, starts);
    var e, o := tabs[k][i], OfFile(k, i);
    RegularIs(e);
    OwnersAre(tabs, o);
    OwnIs(g, f, starts, tabs, o);
    HeadIs(g, starts, tabs, o);
    SlotHere(tabs, k, i);
    ItemIntro(g, f, media, OwnAt(g, f, starts, tabs), o, e);
  }

  lemma SlotHere(tabs: seq<seq<Slot>>, k: nat, i: nat)
    requires k < |tabs| && i < |tabs[k]|
    ensures SlotOf(tabs, OfFile(k, i)) == tabs[k][i]
  {
  }

  lemma ItemIntro(g: Geometry, f: seq<nat>, media: seq<Sector>, own: map<Owner, seq<nat>>, o: Owner, e: Slot)
    requires HeapOK(f) && (!FatOpen.Folder(e) ==>
                             Starting(f, ClusterIn(g, e)) && o in own && own[o] == ChainFrom(f, ClusterIn(g, e)))
    ensures ItemShows(g, media, own, {}, o, e, ItemAt(g, f, media, e))
  {
    hide HeapOK, Starting, ChainFrom, Dormant, FatOpen.Folder, ReadOnly;
  }

  /** A freshly mounted volume that passes the check satisfies the invariant, and shows its entries as files
      with the bytes of their chains. */
  lemma AtMount(g: Geometry, f: seq<nat>, media: seq<Sector>, winsect: nat, starts: seq<nat>)
    requires Readable(g, f, media, starts) && Checked(g, f, starts, TablesAt(g, f, media, starts))
    requires winsect == ALL_ONES || winsect < g.fatbase
    ensures Sys(g, starts, VolAt(g, f, media, winsect, starts), [])
    ensures Shows(g, VolAt(g, f, media, winsect, starts), [], WorldAt(g, f, media, starts))
  {
    hide *;
    var v, w := VolAt(g, f, media, winsect, starts), WorldAt(g, f, media, starts);
    VolAtIs(g, f, media, winsect, starts);
    ReadableIs(g, f, media, starts);
    OwnersHeld(g, f, starts, v.tabs);
    WindowFirst(g, f, v.own, winsect);
    VolIs(g, v);
    TablesStand(g, f, media, winsect, starts);
    EntriesStand(g, f, media, starts);
    NoneOpen(g, v);
    SysIs(g, starts, v, []);
    WorldSize(g, f, media, starts);
    forall k | 0 <= k < |v.tabs|
      ensures DirShows(g, v, {}, k, w.dirs[k])
    {
      DirStandsFor(g, f, media, winsect, starts, k);
    }
    ShowsIs(g, v, [], w);
  }

  lemma NoneOpen(g: Geometry, v: Vol)
    ensures Busy([]) == {} && OpensOK(g, v, [])
  {
  }

}
