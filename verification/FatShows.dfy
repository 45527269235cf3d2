/** That a volume shows a world of the simple form, and what the steps of the volume make of it. */
module FatShows {
  import opened Bytes
  import opened FatEntry
  import opened FatVolume
  import opened FatHeap
  import opened FatChain
  import opened FatData
  import opened FatFileState
  import opened FatApart
  import opened FatDirState
  import opened FatOpen
  import opened FatHolders
  import opened FatWorld
  import M = FatModel

  /** The entry is this item; the bytes of a closed file are on the drive. */
  ghost predicate ItemShows(g: Geometry, media: seq<Sector>, own: map<Owner, seq<nat>>, busy: set<Owner>, o: Owner,
                            e: Slot, item: M.Item) {
    if FatOpen.Folder(e) then item == M.Subdir
    else (
      && item.Plain? && item.readOnly == ReadOnly(e)
      && (o !in busy ==> o in own && item.data == Dormant(g, media, own[o], EntrySize(e)))
    )
  }

  /** The directory is this map. */
  ghost predicate DirShows(g: Geometry, v: Vol, busy: set<Owner>, k: nat, dir: map<seq<byte>, M.Item>) {
    && k < |v.tabs| && dir.Keys == Bindings(v.tabs[k]).Keys
    && forall i :: 0 <= i < |v.tabs[k]| && Live(v.tabs[k][i]) ==>
         && Name(v.tabs[k][i]) in dir
         && ItemShows(g, v.snap.media, v.own, busy, OfFile(k, i), v.tabs[k][i], dir[Name(v.tabs[k][i])])
  }

  ghost predicate DataIn(dirs: seq<map<seq<byte>, M.Item>>, k: nat, name: seq<byte>, data: seq<byte>) {
    k < |dirs| && name in dirs[k] && dirs[k][name].Plain? && dirs[k][name].data == data
  }

  ghost function HandleOf(g: Geometry, tabs: seq<seq<Slot>>, x: OpenFile): M.Handle {
    if x.Shut? then M.Closed
    else M.Open(x.at.dir, Name(SlotOf(tabs, x.at)), x.state.fptr, x.canRead, x.canWrite,
                Matched(g, x.state, x.state.fsize), Good(g, x.state))
  }

  /** The file object is this handle, and its bytes are in the directory. */
  ghost predicate HandleShows(g: Geometry, tabs: seq<seq<Slot>>, dirs: seq<map<seq<byte>, M.Item>>, x: OpenFile,
                              h: M.Handle)
  {
    && h == HandleOf(g, tabs, x)
    && (x.OpenFile? ==> Core(g, x.state) && DataIn(dirs, x.at.dir, Name(SlotOf(tabs, x.at)), File(g, x.state)))
  }

  ghost predicate Shows(g: Geometry, v: Vol, opens: seq<OpenFile>, w: M.World) {
    && |w.dirs| == |v.tabs| && |w.open| == |opens| && w.full == NoneFree(v.fat)
    && (forall k :: 0 <= k < |v.tabs| ==> DirShows(g, v, Busy(opens), k, w.dirs[k]))
    && forall j :: 0 <= j < |opens| ==> HandleShows(g, v.tabs, w.dirs, opens[j], w.open[j])
  }

  lemma ShowsIs(g: Geometry, v: Vol, opens: seq<OpenFile>, w: M.World)
    ensures Shows(g, v, opens, w) <==>
            && |w.dirs| == |v.tabs| && |w.open| == |opens| && w.full == NoneFree(v.fat)
            && (forall k :: 0 <= k < |v.tabs| ==> DirShows(g, v, Busy(opens), k, w.dirs[k]))
            && forall j :: 0 <= j < |opens| ==> HandleShows(g, v.tabs, w.dirs, opens[j], w.open[j])
  {
    hide DirShows, HandleShows, NoneFree, Busy;
  }

  lemma DirShowsAt(g: Geometry, v: Vol, busy: set<Owner>, k: nat, dir: map<seq<byte>, M.Item>, i: nat)
    requires DirShows(g, v, busy, k, dir) && i < |v.tabs[k]| && Live(v.tabs[k][i])
    ensures Name(v.tabs[k][i]) in dir
    ensures ItemShows(g, v.snap.media, v.own, busy, OfFile(k, i), v.tabs[k][i], dir[Name(v.tabs[k][i])])
  {
    hide ItemShows, Live, Name, Bindings;
  }

  lemma DirShowsKeys(g: Geometry, v: Vol, busy: set<Owner>, k: nat, dir: map<seq<byte>, M.Item>)
    requires DirShows(g, v, busy, k, dir)
    ensures k < |v.tabs| && dir.Keys == Bindings(v.tabs[k]).Keys
  {
    hide ItemShows, Live, Name, Bindings;
  }

  lemma DirShowsIntro(g: Geometry, v: Vol, busy: set<Owner>, k: nat, dir: map<seq<byte>, M.Item>)
    requires k < |v.tabs| && dir.Keys == Bindings(v.tabs[k]).Keys
    requires forall i :: 0 <= i < |v.tabs[k]| && Live(v.tabs[k][i]) ==>
               && Name(v.tabs[k][i]) in dir
               && ItemShows(g, v.snap.media, v.own, busy, OfFile(k, i), v.tabs[k][i], dir[Name(v.tabs[k][i])])
    ensures DirShows(g, v, busy, k, dir)
  {
    hide ItemShows, Live, Name, Bindings;
  }

  lemma HandleShowsIs(g: Geometry, tabs: seq<seq<Slot>>, dirs: seq<map<seq<byte>, M.Item>>, x: OpenFile, h: M.Handle)
    ensures HandleShows(g, tabs, dirs, x, h) <==>
            && h == HandleOf(g, tabs, x)
            && (x.OpenFile? ==> Core(g, x.state) && DataIn(dirs, x.at.dir, Name(SlotOf(tabs, x.at)), File(g, x.state)))
  {
    hide HandleOf, Core, DataIn, File, Name, SlotOf;
  }

  lemma HandleOfIs(g: Geometry, tabs: seq<seq<Slot>>, x: OpenFile)
    ensures HandleOf(g, tabs, x) ==
            if x.Shut? then M.Closed
            else M.Open(x.at.dir, Name(SlotOf(tabs, x.at)), x.state.fptr, x.canRead, x.canWrite,
                        Matched(g, x.state, x.state.fsize), Good(g, x.state))
  {
    hide Name, SlotOf, Matched, Good;
  }

  // ---------- What a step leaves alone ----------

  lemma DormantFile(g: Geometry, own: map<Owner, seq<nat>>, tabs: seq<seq<Slot>>, busy: set<Owner>, o: Owner, e: Slot)
    requires EntriesOK(g, own, tabs, busy) && o.OfFile? && o.dir < |tabs| && o.slot < |tabs[o.dir]|
    requires tabs[o.dir][o.slot] == e
    requires Live(e) && !FatOpen.Folder(e)
    ensures o in own
  {
    RegularIs(e);
    hide Fits;
  }

  /** An item that the step is not about. */
  lemma ItemStays(g: Geometry, starts: seq<nat>, v: Vol, who: set<Owner>, m: set<nat>, d: set<nat>, k: nat,
                  f: seq<nat>, b: Snapshot, own: map<Owner, seq<nat>>, busy: set<Owner>, busy': set<Owner>, o: Owner,
                  e: Slot, item: M.Item)
    requires StepOf(g, starts, v, who, m, d, k, f, b, own) && o.OfFile? && o !in who && (o in busy ==> o in busy')
    requires ItemShows(g, v.snap.media, v.own, busy, o, e, item)
    ensures ItemShows(g, b.media, own, busy', o, e, item)
  {
    StepFacts(g, starts, v, who, m, d, k, f, b, own);
    hide StepOf, VolOK, TablesOK, Among, Within, HeapOK, ClosedIn, Held, Passed, Clusters, TableOK, Reach, EntrySize;
    hide FatOpen.Folder, ReadOnly;
    if o in v.own { OtherDormant(g, starts, v, who, m, d, k, f, b, own, o, EntrySize(e)); }
  }

  /** A directory that the step is not about. */
  lemma DirStaysShown(g: Geometry, starts: seq<nat>, v: Vol, who: set<Owner>, m: set<nat>, d: set<nat>, k: nat, v': Vol,
                      busy: set<Owner>, busy': set<Owner>, l: nat, dir: map<seq<byte>, M.Item>)
    requires StepOf(g, starts, v, who, m, d, k, v'.fat, v'.snap, v'.own) && DirShows(g, v, busy, l, dir)
    requires |v'.tabs| == |v.tabs| && v'.tabs[l] == v.tabs[l]
    requires forall i: nat :: OfFile(l, i) !in who && (OfFile(l, i) in busy ==> OfFile(l, i) in busy')
    ensures DirShows(g, v', busy', l, dir)
  {
    hide *;
    DirShowsKeys(g, v, busy, l, dir);
    var slots := v.tabs[l];
    forall i | 0 <= i < |slots| && Live(slots[i])
      ensures Name(slots[i]) in dir
      ensures ItemShows(g, v'.snap.media, v'.own, busy', OfFile(l, i), slots[i], dir[Name(slots[i])])
    {
      DirShowsAt(g, v, busy, l, dir, i);
      ItemStays(g, starts, v, who, m, d, k, v'.fat, v'.snap, v'.own, busy, busy', OfFile(l, i), slots[i],
                dir[Name(slots[i])]);
    }
    DirShowsIntro(g, v', busy', l, dir);
  }

  /** A handle that the step is not about. */
  lemma HandleStays(g: Geometry, starts: seq<nat>, v: Vol, who: set<Owner>, m: set<nat>, d: set<nat>, k: nat, v': Vol,
                    x: OpenFile, h: M.Handle, dirs: seq<map<seq<byte>, M.Item>>, dirs': seq<map<seq<byte>, M.Item>>)
    requires StepOf(g, starts, v, who, m, d, k, v'.fat, v'.snap, v'.own) && HandleShows(g, v.tabs, dirs, x, h)
    requires x.OpenFile? ==> OpenOK(g, v, x) && x.at !in who && SlotOf(v'.tabs, x.at) == SlotOf(v.tabs, x.at)
    requires x.OpenFile? ==> |dirs'| == |dirs| && x.at.dir < |dirs| && Name(SlotOf(v.tabs, x.at)) in dirs[x.at.dir]
                             && Name(SlotOf(v.tabs, x.at)) in dirs'[x.at.dir]
                             && dirs'[x.at.dir][Name(SlotOf(v.tabs, x.at))] ==
                                 dirs[x.at.dir][Name(SlotOf(v.tabs, x.at))]
    ensures HandleShows(g, v'.tabs, dirs', Refreshed(x, v'.fat, v'.snap), h)
  {
    hide *;
    var y := Refreshed(x, v'.fat, v'.snap);
    HandleShowsIs(g, v.tabs, dirs, x, h);
    HandleOfIs(g, v.tabs, x);
    HandleOfIs(g, v'.tabs, y);
    if x.OpenFile? {
      OtherOpen(g, starts, v, who, m, d, k, v'.fat, v'.snap, v'.own, x);
      SameBytesIs(g, x.state, y.state);
      DataIs(dirs, x.at.dir, Name(SlotOf(v.tabs, x.at)), File(g, x.state));
      DataIs(dirs', x.at.dir, Name(SlotOf(v.tabs, x.at)), File(g, x.state));
    } else {
      SameShut(x, v'.fat, v'.snap);
    }
    HandleShowsIs(g, v'.tabs, dirs', y, h);
  }

  lemma SameShut(x: OpenFile, f: seq<nat>, b: Snapshot)
    requires x.Shut?
    ensures Refreshed(x, f, b) == x
  {
  }

  lemma DataIs(dirs: seq<map<seq<byte>, M.Item>>, k: nat, name: seq<byte>, data: seq<byte>)
    ensures DataIn(dirs, k, name, data)
          <==> k < |dirs| && name in dirs[k] && dirs[k][name].Plain? && dirs[k][name].data == data
  {
  }

  lemma NamesDiffer(slots: seq<Slot>, i: nat, j: nat)
    requires DirOK(slots) && i < |slots| && j < |slots| && i != j && Live(slots[i]) && Live(slots[j])
    ensures Name(slots[i]) != Name(slots[j])
  {
    hide Live, Name;
  }

  // ---------- The directory that the step is about ----------

  lemma KeysExtended(slots: seq<Slot>, slots': seq<Slot>)
    requires DirOK(slots) && DirOK(slots') && Extended(slots, slots')
    ensures Bindings(slots').Keys == Bindings(slots).Keys
  {
    BlankIs();
    BindingsIs(slots);
    BindingsIs(slots');
    hide Live, Name, Bindings, Blank;
    forall n | n in Bindings(slots') ensures n in Bindings(slots) {
      var i :| 0 <= i < |slots'| && Live(slots'[i]) && Name(slots'[i]) == n;
      assert i < |slots|;
    }
    forall n | n in Bindings(slots) ensures n in Bindings(slots') {
      var i :| 0 <= i < |slots| && Live(slots[i]) && Name(slots[i]) == n;
      assert slots'[i] == slots[i];
    }
  }

  lemma KeysPlaced(slots: seq<Slot>, slots': seq<Slot>, k: nat, e: Slot)
    requires DirOK(slots) && DirOK(slots') && Placed(slots, slots', k, e) && Live(e)
    ensures Bindings(slots').Keys == Bindings(slots).Keys + {Name(e)}
  {
    BlankIs();
    FreeNotLive(slots, k);
    BindingsIs(slots);
    BindingsIs(slots');
    hide Live, Name, Bindings, Blank, Free;
    forall n | n in Bindings(slots') ensures n in Bindings(slots).Keys + {Name(e)} {
      var i :| 0 <= i < |slots'| && Live(slots'[i]) && Name(slots'[i]) == n;
      assert i != k ==> i < |slots|;
    }
    forall n | n in Bindings(slots).Keys + {Name(e)} ensures n in Bindings(slots') {
      if n == Name(e) {
        assert Live(slots'[k]);
      } else {
        var i :| 0 <= i < |slots| && Live(slots[i]) && Name(slots[i]) == n;
        assert i != k && slots'[i] == slots[i];
      }
    }
  }

  lemma FreeNotLive(slots: seq<Slot>, k: nat)
    ensures k < |slots| && Free(slots[k]) ==> !Live(slots[k])
  {
  }

  /** Slot `i` has changed, but not its name. */
  lemma DirChanged(g: Geometry, starts: seq<nat>, v: Vol, who: set<Owner>, m: set<nat>, d: set<nat>, k: nat, v': Vol,
                   busy: set<Owner>, dir: map<seq<byte>, M.Item>, i: nat, e: Slot, item: M.Item)
    requires StepOf(g, starts, v, who, m, d, k, v'.fat, v'.snap, v'.own) && DirShows(g, v, busy, k, dir)
    requires |v'.tabs| == |v.tabs|
    requires i < |v.tabs[k]| && DirOK(v.tabs[k]) && Live(v.tabs[k][i]) && Live(e) && Name(e) == Name(v.tabs[k][i])
    requires v'.tabs[k] == v.tabs[k][i := e]
    requires forall n: nat :: n != i ==> OfFile(k, n) !in who
    requires ItemShows(g, v'.snap.media, v'.own, busy, OfFile(k, i), e, item)
    ensures DirShows(g, v', busy, k, dir[Name(e) := item])
  {
    hide *;
    DirShowsKeys(g, v, busy, k, dir);
    DirShowsAt(g, v, busy, k, dir, i);
    var slots, slots', dir' := v.tabs[k], v'.tabs[k], dir[Name(e) := item];
    RewrittenIntro(slots, i, e);
    RewrittenIs(slots, slots', i, e);
    forall n | 0 <= n < |slots'| && Live(slots'[n])
      ensures Name(slots'[n]) in dir'
      ensures ItemShows(g, v'.snap.media, v'.own, busy, OfFile(k, n), slots'[n], dir'[Name(slots'[n])])
    {
      if n != i {
        DirShowsAt(g, v, busy, k, dir, n);
        NamesDiffer(slots, n, i);
        ItemStays(g, starts, v, who, m, d, k, v'.fat, v'.snap, v'.own, busy, busy, OfFile(k, n), slots[n],
                  dir[Name(slots[n])]);
      }
    }
    DirShowsIntro(g, v', busy, k, dir');
  }

  /** A slot was taken for a new name. */
  lemma DirPlaced(g: Geometry, starts: seq<nat>, v: Vol, who: set<Owner>, m: set<nat>, d: set<nat>, k: nat, v': Vol,
                  busy: set<Owner>, dir: map<seq<byte>, M.Item>, i: nat, e: Slot, item: M.Item)
    requires StepOf(g, starts, v, who, m, d, k, v'.fat, v'.snap, v'.own) && DirShows(g, v, busy, k, dir)
    requires |v'.tabs| == |v.tabs|
    requires DirOK(v.tabs[k]) && DirOK(v'.tabs[k]) && Placed(v.tabs[k], v'.tabs[k], i, e) && Live(e)
    requires (forall n: nat :: OfFile(k, n) !in who) && ItemShows(g, v'.snap.media, v'.own, busy, OfFile(k, i), e, item)
    ensures DirShows(g, v', busy, k, dir[Name(e) := item])
  {
    hide *;
    DirShowsKeys(g, v, busy, k, dir);
    var slots, slots', dir' := v.tabs[k], v'.tabs[k], dir[Name(e) := item];
    KeysPlaced(slots, slots', i, e);
    BlankIs();
    PlacedFacts(slots, slots', i, e);
    forall n | 0 <= n < |slots'| && Live(slots'[n])
      ensures Name(slots'[n]) in dir'
      ensures ItemShows(g, v'.snap.media, v'.own, busy, OfFile(k, n), slots'[n], dir'[Name(slots'[n])])
    {
      if n != i {
        DirShowsAt(g, v, busy, k, dir, n);
        NamesDiffer(slots', n, i);
        ItemStays(g, starts, v, who, m, d, k, v'.fat, v'.snap, v'.own, busy, busy, OfFile(k, n), slots[n],
                  dir[Name(slots[n])]);
      }
    }
    DirShowsIntro(g, v', busy, k, dir');
  }

  lemma PlacedFacts(slots: seq<Slot>, slots': seq<Slot>, k: nat, e: Slot)
    requires Placed(slots, slots', k, e)
    ensures |slots| <= |slots'| && k < |slots'| && slots'[k] == e
    ensures forall i :: 0 <= i < |slots'| && i != k ==> slots'[i] == if i < |slots| then slots[i] else Blank()
  {
    hide Blank;
  }

  /** Blank slots came at the end, or nothing changed. */
  lemma DirExtended(g: Geometry, starts: seq<nat>, v: Vol, who: set<Owner>, m: set<nat>, d: set<nat>, k: nat, v': Vol,
                    busy: set<Owner>, dir: map<seq<byte>, M.Item>)
    requires StepOf(g, starts, v, who, m, d, k, v'.fat, v'.snap, v'.own) && DirShows(g, v, busy, k, dir)
    requires |v'.tabs| == |v.tabs|
    requires DirOK(v.tabs[k]) && DirOK(v'.tabs[k]) && Extended(v.tabs[k], v'.tabs[k])
    requires forall n: nat :: OfFile(k, n) !in who
    ensures DirShows(g, v', busy, k, dir)
  {
    hide *;
    DirShowsKeys(g, v, busy, k, dir);
    var slots, slots' := v.tabs[k], v'.tabs[k];
    KeysExtended(slots, slots');
    BlankIs();
    ExtendedFacts(slots, slots');
    forall n | 0 <= n < |slots'| && Live(slots'[n])
      ensures Name(slots'[n]) in dir
      ensures ItemShows(g, v'.snap.media, v'.own, busy, OfFile(k, n), slots'[n], dir[Name(slots'[n])])
    {
      DirShowsAt(g, v, busy, k, dir, n);
      ItemStays(g, starts, v, who, m, d, k, v'.fat, v'.snap, v'.own, busy, busy, OfFile(k, n), slots[n],
                dir[Name(slots[n])]);
    }
    DirShowsIntro(g, v', busy, k, dir);
  }

  lemma ExtendedFacts(slots: seq<Slot>, slots': seq<Slot>)
    requires Extended(slots, slots')
    ensures |slots| <= |slots'|
    ensures forall i :: 0 <= i < |slots'| ==> slots'[i] == if i < |slots| then slots[i] else Blank()
  {
    hide Blank;
  }

  /** The entry in slot `i` was marked deleted. */
  lemma DirStruck(g: Geometry, starts: seq<nat>, v: Vol, who: set<Owner>, m: set<nat>, d: set<nat>, k: nat, v': Vol,
                  busy: set<Owner>, dir: map<seq<byte>, M.Item>, i: nat)
    requires StepOf(g, starts, v, who, m, d, k, v'.fat, v'.snap, v'.own) && DirShows(g, v, busy, k, dir)
    requires |v'.tabs| == |v.tabs|
    requires DirOK(v.tabs[k]) && i < |v.tabs[k]| && Live(v.tabs[k][i]) && v'.tabs[k] == v.tabs[k][i := Deleted()]
    requires forall n: nat :: n != i ==> OfFile(k, n) !in who
    ensures DirShows(g, v', busy, k, dir - {Name(v.tabs[k][i])})
  {
    hide *;
    DirShowsKeys(g, v, busy, k, dir);
    var slots, slots', dir' := v.tabs[k], v'.tabs[k], dir - {Name(v.tabs[k][i])};
    Deregistered(slots, i);
    DeletedIs();
    assert dir'.Keys == Bindings(slots').Keys;
    forall n | 0 <= n < |slots'| && Live(slots'[n])
      ensures Name(slots'[n]) in dir'
      ensures ItemShows(g, v'.snap.media, v'.own, busy, OfFile(k, n), slots'[n], dir'[Name(slots'[n])])
    {
      DirShowsAt(g, v, busy, k, dir, n);
      NamesDiffer(slots, n, i);
      ItemStays(g, starts, v, who, m, d, k, v'.fat, v'.snap, v'.own, busy, busy, OfFile(k, n), slots[n],
                dir[Name(slots[n])]);
    }
    DirShowsIntro(g, v', busy, k, dir');
  }

  // ---------- Worlds ----------

  /** The world after a step in which the step's own directory and handles are as given. */
  ghost predicate WorldAfter(g: Geometry, v: Vol, opens: seq<OpenFile>, w: M.World, who: set<Owner>, k: nat, v': Vol,
                             opens': seq<OpenFile>, w': M.World) {
    && |w'.dirs| == |w.dirs| && |w'.open| == |w.open| && w'.full == NoneFree(v'.fat) && k < |w.dirs|
    && (forall l :: 0 <= l < |w.dirs| && l != k ==> w'.dirs[l] == w.dirs[l])
    && DirShows(g, v', Busy(opens), k, w'.dirs[k])
    && (forall l: nat, i: nat :: l != k ==> OfFile(l, i) !in who)
    && |opens| == |w.open| && |opens'| == |opens|
    && forall j :: 0 <= j < |opens| ==>
         if opens[j].OpenFile? && opens[j].at in who then HandleShows(g, v'.tabs, w'.dirs, opens'[j], w'.open[j])
         else
           && w'.open[j] == w.open[j]
           && (opens[j].OpenFile? && opens[j].at.dir == k ==>
                 var n := Name(SlotOf(v.tabs, opens[j].at));
                     n in w.dirs[k] && n in w'.dirs[k] && w'.dirs[k][n] == w.dirs[k][n])
  }

  lemma WorldAfterIs(g: Geometry, v: Vol, opens: seq<OpenFile>, w: M.World, who: set<Owner>, k: nat, v': Vol,
                     opens': seq<OpenFile>, w': M.World)
    ensures WorldAfter(g, v, opens, w, who, k, v', opens', w') <==>
            && |w'.dirs| == |w.dirs| && |w'.open| == |w.open| && w'.full == NoneFree(v'.fat) && k < |w.dirs|
            && (forall l :: 0 <= l < |w.dirs| && l != k ==> w'.dirs[l] == w.dirs[l])
            && DirShows(g, v', Busy(opens), k, w'.dirs[k])
            && (forall l: nat, i: nat :: l != k ==> OfFile(l, i) !in who)
            && |opens| == |w.open| && |opens'| == |opens|
            && forall j :: 0 <= j < |opens| ==>
                 if opens[j].OpenFile? && opens[j].at in who then
                     HandleShows(g, v'.tabs, w'.dirs, opens'[j], w'.open[j])
                 else
                   && w'.open[j] == w.open[j]
                   && (opens[j].OpenFile? && opens[j].at.dir == k ==>
                         var n := Name(SlotOf(v.tabs, opens[j].at));
                             n in w.dirs[k] && n in w'.dirs[k] && w'.dirs[k][n] == w.dirs[k][n])
  {
    hide DirShows, HandleShows, Name, SlotOf, Busy, NoneFree;
  }

  lemma ShowsAfter(g: Geometry, starts: seq<nat>, v: Vol, opens: seq<OpenFile>, w: M.World, who: set<Owner>,
                   m: set<nat>, d: set<nat>, k: nat, v': Vol, opens': seq<OpenFile>, w': M.World)
    requires Sys(g, starts, v, opens) && Shows(g, v, opens, w)
    requires StepOf(g, starts, v, who, m, d, k, v'.fat, v'.snap, v'.own)
    requires TabsAfter(g, starts, v, who, k, v') && OpensAfter(g, v', who, opens, opens') && Busy(opens') == Busy(opens)
    requires WorldAfter(g, v, opens, w, who, k, v', opens', w')
    ensures Shows(g, v', opens', w')
  {
    hide *;
    SysIs(g, starts, v, opens);
    ShowsIs(g, v, opens, w);
    TabsAfterIs(g, starts, v, who, k, v');
    OpensAfterIs(g, v', who, opens, opens');
    WorldAfterIs(g, v, opens, w, who, k, v', opens', w');
    forall l | 0 <= l < |v'.tabs| ensures DirShows(g, v', Busy(opens'), l, w'.dirs[l]) {
      if l != k { DirStaysShown(g, starts, v, who, m, d, k, v', Busy(opens), Busy(opens), l, w.dirs[l]); }
    }
    forall j | 0 <= j < |opens'| ensures HandleShows(g, v'.tabs, w'.dirs, opens'[j], w'.open[j]) {
      if !(opens[j].OpenFile? && opens[j].at in who) {
        if opens[j].OpenFile? {
          OpenAt(g, v, opens, j);
          OpenIs(g, v, opens[j]);
          HandleShowsIs(g, v.tabs, w.dirs, opens[j], w.open[j]);
          DataIs(w.dirs, opens[j].at.dir, Name(SlotOf(v.tabs, opens[j].at)), File(g, opens[j].state));
        }
        HandleStays(g, starts, v, who, m, d, k, v', opens[j], w.open[j], w.dirs, w'.dirs);
      }
    }
    ShowsIs(g, v', opens', w');
  }

  // ---------- Calls on an open file ----------

  ghost function ModelOf(g: Geometry, s: FState): M.Model
    requires Core(g, s)
  {
    M.Model(File(g, s), s.fptr, Matched(g, s, s.fsize), Good(g, s))
  }

  lemma ModelOfIs(g: Geometry, s: FState)
    requires Core(g, s)
    ensures ModelOf(g, s) == M.Model(File(g, s), s.fptr, Matched(g, s, s.fsize), Good(g, s))
  {
    hide Core, File, Matched, Good;
  }

  /** The handle of an open file is in the world. */
  lemma HandleThere(g: Geometry, starts: seq<nat>, v: Vol, opens: seq<OpenFile>, w: M.World, j: nat)
    requires Sys(g, starts, v, opens) && Shows(g, v, opens, w) && j < |opens| && opens[j].OpenFile?
    ensures M.HandleIn(w, j) && Core(g, opens[j].state) && M.ModelAt(w, j) == ModelOf(g, opens[j].state)
    ensures w.open[j] == HandleOf(g, v.tabs, opens[j]) && w.open[j].dir == opens[j].at.dir
    ensures w.open[j].name == Name(SlotOf(v.tabs, opens[j].at))
    ensures w.open[j].canRead == opens[j].canRead && w.open[j].canWrite == opens[j].canWrite
    ensures opens[j].at.OfFile? && opens[j].at.dir < |v.tabs| == |starts|
    ensures opens[j].at.slot < |v.tabs[opens[j].at.dir]|
    ensures SlotOf(v.tabs, opens[j].at) == v.tabs[opens[j].at.dir][opens[j].at.slot]
    ensures Live(SlotOf(v.tabs, opens[j].at)) && !FatOpen.Folder(SlotOf(v.tabs, opens[j].at))
    ensures opens[j].at in Busy(opens)
    ensures DirOK(v.tabs[opens[j].at.dir])
    ensures w.dirs[w.open[j].dir][w.open[j].name].readOnly == ReadOnly(SlotOf(v.tabs, opens[j].at))
  {
    hide *;
    var x := opens[j];
    SysIs(g, starts, v, opens);
    ShowsIs(g, v, opens, w);
    OpenAt(g, v, opens, j);
    OpenIs(g, v, x);
    HandleShowsIs(g, v.tabs, w.dirs, x, w.open[j]);
    HandleOfIs(g, v.tabs, x);
    DirInRange(g, v.own, v.tabs, Busy(opens), x.at);
    RegularIs(SlotOf(v.tabs, x.at));
    DataIs(w.dirs, x.at.dir, Name(SlotOf(v.tabs, x.at)), File(g, x.state));
    HandleInIntro(w, j);
    ModelOfIs(g, x.state);
    BusyAt(opens, j);
    TablesSize(g, starts, v);
    TableIn(g, starts, v, x.at.dir);
    TableAtIs(g, v.fat, v.snap, starts[x.at.dir], v.own[OfDir(x.at.dir)], v.tabs[x.at.dir]);
    DirShowsAt(g, v, Busy(opens), x.at.dir, w.dirs[x.at.dir], x.at.slot);
    PlainItem(g, v.snap.media, v.own, Busy(opens), x.at, SlotOf(v.tabs, x.at),
              w.dirs[x.at.dir][Name(SlotOf(v.tabs, x.at))]);
  }

  lemma HandleInIntro(w: M.World, h: nat)
    requires h < |w.open| && w.open[h].Open? && w.open[h].dir < |w.dirs|
    requires w.open[h].name in w.dirs[w.open[h].dir] && w.dirs[w.open[h].dir][w.open[h].name].Plain?
    ensures M.HandleIn(w, h)
    ensures M.ModelAt(w, h) == M.Model(w.dirs[w.open[h].dir][w.open[h].name].data, w.open[h].pos, w.open[h].sure,
                                       w.open[h].good)
  {
  }

  lemma PlainItem(g: Geometry, media: seq<Sector>, own: map<Owner, seq<nat>>, busy: set<Owner>, o: Owner, e: Slot,
                  item: M.Item)
    requires ItemShows(g, media, own, busy, o, e, item) && !FatOpen.Folder(e)
    ensures item.Plain? && item.readOnly == ReadOnly(e)
    ensures o !in busy ==> o in own && item.data == Dormant(g, media, own[o], EntrySize(e))
  {
    hide Dormant, EntrySize, ReadOnly, FatOpen.Folder;
  }

  lemma BusyItem(g: Geometry, media: seq<Sector>, own: map<Owner, seq<nat>>, busy: set<Owner>, o: Owner, e: Slot,
                 data: seq<byte>)
    requires o in busy && !FatOpen.Folder(e)
    ensures ItemShows(g, media, own, busy, o, e, M.Plain(data, ReadOnly(e)))
  {
  }

  lemma WithIs(w: M.World, h: nat, y: M.Model, full: bool)
    requires M.HandleIn(w, h)
    ensures var hd := w.open[h];
            M.With(w, h, y, full) ==
            M.World(w.dirs[hd.dir := w.dirs[hd.dir][hd.name := M.Plain(y.data, w.dirs[hd.dir][hd.name].readOnly)]],
                    w.open[h := M.Open(hd.dir, hd.name, y.pos, hd.canRead, hd.canWrite, y.sure, y.good)], full)
    ensures M.HandleIn(M.With(w, h, y, full), h) && M.ModelAt(M.With(w, h, y, full), h) == y
  {
  }

  lemma OtherName(g: Geometry, starts: seq<nat>, v: Vol, opens: seq<OpenFile>, w: M.World, j: nat, l: nat)
    requires Sys(g, starts, v, opens) && Shows(g, v, opens, w) && j < |opens| && opens[j].OpenFile? && l < |opens|
    requires opens[l].OpenFile? && l != j
    requires opens[l].at.dir == opens[j].at.dir
    ensures opens[l].at != opens[j].at && Name(SlotOf(v.tabs, opens[l].at)) != Name(SlotOf(v.tabs, opens[j].at))
  {
    hide *;
    HandleThere(g, starts, v, opens, w, j);
    HandleThere(g, starts, v, opens, w, l);
    SysIs(g, starts, v, opens);
    OpensTwo(g, v, opens, j, l);
    NamesDiffer(v.tabs[opens[j].at.dir], opens[l].at.slot, opens[j].at.slot);
  }

  lemma OpensTwo(g: Geometry, v: Vol, opens: seq<OpenFile>, j: nat, l: nat)
    requires OpensOK(g, v, opens) && j < |opens| && l < |opens| && j != l && opens[j].OpenFile? && opens[l].OpenFile?
    ensures opens[j].at != opens[l].at
  {
    hide OpenOK;
  }

  /** After a call on file object `j` the world has that file's new bytes, position and flags. */
  lemma FileWorld(g: Geometry, starts: seq<nat>, v: Vol, opens: seq<OpenFile>, w: M.World, j: nat, y: OpenFile,
                  m: set<nat>, d: set<nat>, v': Vol, e: Slot)
    requires Sys(g, starts, v, opens) && Shows(g, v, opens, w) && j < |opens| && opens[j].OpenFile? && y.OpenFile?
    requires y == opens[j].(state := y.state, written := y.written) && Core(g, y.state) && v'.fat == y.state.fat
    requires var opens' := RefreshedAll(opens, v'.fat, v'.snap)[j := y];
             && StepOf(g, starts, v, {y.at}, m, d, y.at.dir, v'.fat, v'.snap, v'.own)
             && TabsAfter(g, starts, v, {y.at}, y.at.dir, v')
             && OpensAfter(g, v', {y.at}, opens, opens') && Busy(opens') == Busy(opens)
    requires var e0 := SlotOf(v.tabs, y.at);
             && v'.tabs == Replaced(v.tabs, y.at, e) && Live(e) && Name(e) == Name(e0)
             && (FatOpen.Folder(e) <==> FatOpen.Folder(e0))
             && (ReadOnly(e) <==> ReadOnly(e0))
    ensures M.HandleIn(w, j) && Shows(g, v', RefreshedAll(opens, v'.fat, v'.snap)[j := y],
                                      M.With(w, j, ModelOf(g, y.state), NoneFree(v'.fat)))
  {
    hide *;
    var x, k, opens' := opens[j], y.at.dir, RefreshedAll(opens, v'.fat, v'.snap)[j := y];
    HandleThere(g, starts, v, opens, w, j);
    ReplacedIs(v.tabs, y.at, e);
    ShowsIs(g, v, opens, w);
    ModelOfIs(g, y.state);
    WithIs(w, j, ModelOf(g, y.state), NoneFree(v'.fat));
    var w' := M.With(w, j, ModelOf(g, y.state), NoneFree(v'.fat));
    var item := M.Plain(File(g, y.state), ReadOnly(e));
    BusyItem(g, v'.snap.media, v'.own, Busy(opens), y.at, e, File(g, y.state));
    DirChanged(g, starts, v, {y.at}, m, d, k, v', Busy(opens), w.dirs[k], y.at.slot, e, item);
    HandleOfIs(g, v.tabs, x);
    HandleOfIs(g, v'.tabs, y);
    DataIs(w'.dirs, k, Name(e), File(g, y.state));
    HandleShowsIs(g, v'.tabs, w'.dirs, y, w'.open[j]);
    forall l | 0 <= l < |opens| && l != j && opens[l].OpenFile?
      ensures opens[l].at != y.at
      ensures opens[l].at.dir == k ==>
                var n := Name(SlotOf(v.tabs, opens[l].at));
                n in w.dirs[k] && n in w'.dirs[k] && w'.dirs[k][n] == w.dirs[k][n]
    {
      HandleThere(g, starts, v, opens, w, l);
      HandleInIs(w, l);
      if opens[l].at.dir == k { OtherName(g, starts, v, opens, w, j, l); }
    }
    WorldAfterIs(g, v, opens, w, {y.at}, k, v', opens', w');
    ShowsAfter(g, starts, v, opens, w, {y.at}, m, d, k, v', opens', w');
  }

  lemma HandleInIs(w: M.World, h: nat)
    requires M.HandleIn(w, h)
    ensures h < |w.open| && w.open[h].Open? && w.open[h].dir < |w.dirs|
    ensures w.open[h].name in w.dirs[w.open[h].dir] && w.dirs[w.open[h].dir][w.open[h].name].Plain?
  {
  }

  // ---------- Operations on a directory ----------

  /** No handle is touched, and every file that is open keeps its item. */
  lemma DirWorld(g: Geometry, starts: seq<nat>, v: Vol, opens: seq<OpenFile>, w: M.World, who: set<Owner>, m: set<nat>,
                 d: set<nat>, k: nat, v': Vol, dir': map<seq<byte>, M.Item>)
    requires Sys(g, starts, v, opens) && Shows(g, v, opens, w)
    requires StepOf(g, starts, v, who, m, d, k, v'.fat, v'.snap, v'.own)
    requires TabsAfter(g, starts, v, who, k, v') && OpensAfter(g, v', who, opens, RefreshedAll(opens, v'.fat, v'.snap))
    requires Busy(RefreshedAll(opens, v'.fat, v'.snap)) == Busy(opens) && who !! Busy(opens) && k < |w.dirs|
    requires (forall l: nat, i: nat :: l != k ==> OfFile(l, i) !in who) && DirShows(g, v', Busy(opens), k, dir')
    requires forall j :: 0 <= j < |opens| && opens[j].OpenFile? && opens[j].at.dir == k ==>
               var n := Name(SlotOf(v.tabs, opens[j].at)); n in w.dirs[k] && n in dir' && dir'[n] == w.dirs[k][n]
    ensures Shows(g, v', RefreshedAll(opens, v'.fat, v'.snap), M.World(w.dirs[k := dir'], w.open, NoneFree(v'.fat)))
  {
    hide *;
    ShowsIs(g, v, opens, w);
    var w' := M.World(w.dirs[k := dir'], w.open, NoneFree(v'.fat));
    forall j | 0 <= j < |opens| && opens[j].OpenFile? ensures opens[j].at !in who { BusyAt(opens, j); }
    WorldAfterIs(g, v, opens, w, who, k, v', RefreshedAll(opens, v'.fat, v'.snap), w');
    ShowsAfter(g, starts, v, opens, w, who, m, d, k, v', RefreshedAll(opens, v'.fat, v'.snap), w');
  }

  /** Searching, and perhaps stretching, shows the same world. */
  lemma SearchedWorld(g: Geometry, starts: seq<nat>, v: Vol, opens: seq<OpenFile>, w: M.World, k: nat, f: seq<nat>,
                      b: Snapshot, ch: seq<nat>, slots: seq<Slot>)
    requires Sys(g, starts, v, opens) && DirNow(g, starts, k, f, b, ch, slots) && k < |v.tabs| && OfDir(k) in v.own
    requires Shows(g, v, opens, w)
    requires DirStays(g, v.fat, v.own[OfDir(k)], v.snap, f, ch, b) && Extended(v.tabs[k], slots)
    ensures var v', opens' := Vol(f, b, v.own[OfDir(k) := ch], v.tabs[k := slots]), RefreshedAll(opens, f, b);
            Sys(g, starts, v', opens') && Busy(opens') == Busy(opens) && Shows(g, v', opens', w.(full := NoneFree(f)))
  {
    hide *;
    SysIs(g, starts, v, opens);
    ShowsIs(g, v, opens, w);
    DirNowIs(g, starts, k, f, b, ch, slots);
    TableIn(g, starts, v, k);
    TableAtIs(g, v.fat, v.snap, starts[k], v.own[OfDir(k)], v.tabs[k]);
    SearchedSys(g, starts, v, opens, k, f, b, ch, slots);
    var v', m := Vol(f, b, v.own[OfDir(k) := ch], v.tabs[k := slots]), Mine(v.fat, v.own[OfDir(k)]);
    DirExtended(g, starts, v, {OfDir(k)}, m, Reach(g, ch), k, v', Busy(opens), w.dirs[k]);
    OpenNames(g, starts, v, opens, w);
    DirWorld(g, starts, v, opens, w, {OfDir(k)}, m, Reach(g, ch), k, v', w.dirs[k]);
    assert w.dirs[k := w.dirs[k]] == w.dirs;
  }

  /** The names of the open files are in their directories. */
  lemma OpenNames(g: Geometry, starts: seq<nat>, v: Vol, opens: seq<OpenFile>, w: M.World)
    requires Sys(g, starts, v, opens) && Shows(g, v, opens, w)
    ensures |w.dirs| == |v.tabs|
    ensures forall j :: 0 <= j < |opens| && opens[j].OpenFile? ==>
              && opens[j].at.OfFile? && opens[j].at.dir < |w.dirs|
              && Name(SlotOf(v.tabs, opens[j].at)) in w.dirs[opens[j].at.dir]
              && opens[j].at.slot < |v.tabs[opens[j].at.dir]| && Live(v.tabs[opens[j].at.dir][opens[j].at.slot])
              && SlotOf(v.tabs, opens[j].at) == v.tabs[opens[j].at.dir][opens[j].at.slot] && opens[j].at in Busy(opens)
  {
    hide *;
    ShowsIs(g, v, opens, w);
    forall j | 0 <= j < |opens| && opens[j].OpenFile?
      ensures opens[j].at.OfFile? && opens[j].at.dir < |w.dirs|
      ensures Name(SlotOf(v.tabs, opens[j].at)) in w.dirs[opens[j].at.dir]
      ensures opens[j].at.slot < |v.tabs[opens[j].at.dir]| && Live(v.tabs[opens[j].at.dir][opens[j].at.slot])
      ensures SlotOf(v.tabs, opens[j].at) == v.tabs[opens[j].at.dir][opens[j].at.slot] && opens[j].at in Busy(opens)
    {
      HandleThere(g, starts, v, opens, w, j);
      HandleInIs(w, j);
    }
  }

  lemma NoBytes(g: Geometry, media: seq<Sector>, own: map<Owner, seq<nat>>, busy: set<Owner>, o: Owner, e: Slot)
    requires !FatOpen.Folder(e) && !ReadOnly(e) && EntrySize(e) == 0 && o in own && own[o] == []
    ensures ItemShows(g, media, own, busy, o, e, M.Plain([], false))
  {
    hide EntrySize, FatOpen.Folder, ReadOnly;
    assert Dormant(g, media, [], 0) == [];
  }

  /** A new entry is a new, empty file. */
  lemma CreatedWorld(g: Geometry, starts: seq<nat>, v: Vol, opens: seq<OpenFile>, w: M.World, k: nat, f: seq<nat>,
                     b: Snapshot, ch: seq<nat>, slots: seq<Slot>, i: nat, e: Slot)
    requires Sys(g, starts, v, opens) && DirNow(g, starts, k, f, b, ch, slots) && k < |v.tabs| && OfDir(k) in v.own
    requires Shows(g, v, opens, w)
    requires DirStays(g, v.fat, v.own[OfDir(k)], v.snap, f, ch, b) && Placed(v.tabs[k], slots, i, e) && Regular(e)
    requires Fits(g, e, [])
    requires !ReadOnly(e) && EntrySize(e) == 0 && Name(e) !in w.dirs[k]
    ensures OfFile(k, i) !in Busy(opens)
    ensures var v', opens' := Vol(f, b, v.own[OfDir(k) := ch][OfFile(k, i) := []],
                                  v.tabs[k := slots]), RefreshedAll(opens, f, b);
            Sys(g, starts, v', opens') && Busy(opens') == Busy(opens)
            && Shows(g, v', opens', M.World(w.dirs[k := w.dirs[k][Name(e) := M.Plain([], false)]], w.open, NoneFree(f)))
  {
    hide *;
    SysIs(g, starts, v, opens);
    ShowsIs(g, v, opens, w);
    DirNowIs(g, starts, k, f, b, ch, slots);
    TableIn(g, starts, v, k);
    TableAtIs(g, v.fat, v.snap, starts[k], v.own[OfDir(k)], v.tabs[k]);
    CreatedSys(g, starts, v, opens, k, f, b, ch, slots, i, e);
    var own := v.own[OfDir(k) := ch][OfFile(k, i) := []];
    var v', m, dir' := Vol(f, b, own,
                           v.tabs[k := slots]), Mine(v.fat, v.own[OfDir(k)]), w.dirs[k][Name(e) := M.Plain([], false)];
    RegularIs(e);
    NoBytes(g, b.media, own, Busy(opens), OfFile(k, i), e);
    DirPlaced(g, starts, v, {OfDir(k)}, m, Reach(g, ch), k, v', Busy(opens), w.dirs[k], i, e, M.Plain([], false));
    OpenNames(g, starts, v, opens, w);
    DirWorld(g, starts, v, opens, w, {OfDir(k)}, m, Reach(g, ch), k, v', dir');
  }

  lemma OpenApart(g: Geometry, starts: seq<nat>, v: Vol, opens: seq<OpenFile>, w: M.World, k: nat, i: nat)
    requires Sys(g, starts, v, opens) && Shows(g, v, opens, w) && k < |v.tabs| && i < |v.tabs[k]| && Live(v.tabs[k][i])
    requires OfFile(k, i) !in Busy(opens)
    requires DirOK(v.tabs[k])
    ensures forall j :: 0 <= j < |opens| && opens[j].OpenFile? && opens[j].at.dir == k ==>
              Name(SlotOf(v.tabs, opens[j].at)) != Name(v.tabs[k][i])
  {
    hide *;
    OpenNames(g, starts, v, opens, w);
    forall j | 0 <= j < |opens| && opens[j].OpenFile? && opens[j].at.dir == k
      ensures Name(SlotOf(v.tabs, opens[j].at)) != Name(v.tabs[k][i])
    {
      NamesDiffer(v.tabs[k], opens[j].at.slot, i);
    }
  }

  /** An emptied entry is an empty file. */
  lemma EmptiedWorld(g: Geometry, starts: seq<nat>, v: Vol, opens: seq<OpenFile>, w: M.World, k: nat, f: seq<nat>,
                     b: Snapshot, slots: seq<Slot>, i: nat, e: Slot)
    requires Sys(g, starts, v, opens) && k < |v.tabs| && OfDir(k) in v.own
    requires DirNow(g, starts, k, f, b, v.own[OfDir(k)], slots) && Shows(g, v, opens, w)
    requires i < |v.tabs[k]| && OfFile(k, i) in v.own && OfFile(k, i) !in Busy(opens) && slots == v.tabs[k][i := e]
    requires Regular(e) && Fits(g, e, [])
    requires FreedChain(v.fat, f, v.own[OfFile(k, i)]) && b.direct == v.snap.direct && Clusters(g, v.own[OfDir(k)])
    requires Within(g, Mine(v.fat, v.own[OfDir(k)]) + ToSet(v.own[OfFile(k, i)]), Reach(g, v.own[OfDir(k)]), v.fat,
                    v.snap, f, b)
    requires !ReadOnly(e) && EntrySize(e) == 0 && Live(v.tabs[k][i]) && Name(e) == Name(v.tabs[k][i])
    ensures var v', opens' := Vol(f, b, v.own[OfFile(k, i) := []],
                                  Replaced(v.tabs, OfFile(k, i), e)), RefreshedAll(opens, f, b);
            Sys(g, starts, v', opens') && Busy(opens') == Busy(opens)
            && Shows(g, v', opens', M.World(w.dirs[k := w.dirs[k][Name(e) := M.Plain([], false)]], w.open, NoneFree(f)))
  {
    hide *;
    var o, dch := OfFile(k, i), v.own[OfDir(k)];
    var who, m := {OfDir(k), o}, Mine(v.fat, dch) + ToSet(v.own[o]);
    SysIs(g, starts, v, opens);
    ShowsIs(g, v, opens, w);
    DirNowIs(g, starts, k, f, b, dch, slots);
    TableIn(g, starts, v, k);
    TableAtIs(g, v.fat, v.snap, starts[k], dch, v.tabs[k]);
    EmptiedSys(g, starts, v, opens, k, f, b, slots, i, e);
    ReplacedIs(v.tabs, o, e);
    var v', dir' := Vol(f, b, v.own[o := []], Replaced(v.tabs, o, e)), w.dirs[k][Name(e) := M.Plain([], false)];
    RegularIs(e);
    NoBytes(g, b.media, v'.own, Busy(opens), o, e);
    DirChanged(g, starts, v, who, m, Reach(g, dch), k, v', Busy(opens), w.dirs[k], i, e, M.Plain([], false));
    OpenNames(g, starts, v, opens, w);
    OpenApart(g, starts, v, opens, w, k, i);
    DirWorld(g, starts, v, opens, w, who, m, Reach(g, dch), k, v', dir');
  }

  /** A struck entry is a file less. */
  lemma StruckWorld(g: Geometry, starts: seq<nat>, v: Vol, opens: seq<OpenFile>, w: M.World, k: nat, f: seq<nat>,
                    b: Snapshot, ch: seq<nat>, slots: seq<Slot>, i: nat)
    requires Sys(g, starts, v, opens) && DirNow(g, starts, k, f, b, ch, slots) && k < |v.tabs| && OfDir(k) in v.own
    requires i < |v.tabs[k]|
    requires DirStays(g, v.fat, v.own[OfDir(k)], v.snap, f, ch, b) && slots == v.tabs[k][i := Deleted()]
    requires OfFile(k, i) !in Busy(opens)
    requires Shows(g, v, opens, w) && Live(v.tabs[k][i])
    ensures var v' := Vol(f, b, v.own[OfDir(k) := ch] - {OfFile(k, i)}, Replaced(v.tabs, OfFile(k, i), Deleted()));
            Sys(g, starts, v', RefreshedAll(opens, f, b)) && Busy(RefreshedAll(opens, f, b)) == Busy(opens)
            && Shows(g, v', RefreshedAll(opens, f, b),
                     M.World(w.dirs[k := w.dirs[k] - {Name(v.tabs[k][i])}], w.open, NoneFree(f)))
  {
    hide *;
    var o, who, m := OfFile(k, i), {OfDir(k), OfFile(k, i)}, Mine(v.fat, v.own[OfDir(k)]);
    SysIs(g, starts, v, opens);
    ShowsIs(g, v, opens, w);
    DirNowIs(g, starts, k, f, b, ch, slots);
    TableIn(g, starts, v, k);
    TableAtIs(g, v.fat, v.snap, starts[k], v.own[OfDir(k)], v.tabs[k]);
    StruckSys(g, starts, v, opens, k, f, b, ch, slots, i);
    ReplacedIs(v.tabs, o, Deleted());
    var v', dir' := Vol(f, b, v.own[OfDir(k) := ch] - {o},
                        Replaced(v.tabs, o, Deleted())), w.dirs[k] - {Name(v.tabs[k][i])};
    DirStruck(g, starts, v, who, m, Reach(g, ch), k, v', Busy(opens), w.dirs[k], i);
    OpenNames(g, starts, v, opens, w);
    OpenApart(g, starts, v, opens, w, k, i);
    DirWorld(g, starts, v, opens, w, who, m, Reach(g, ch), k, v', dir');
  }

  // ---------- Opening and closing ----------

  /** With the buffer clean, what the file shows is on the drive. */
  lemma DormantOf(g: Geometry, s: FState)
    requires Core(g, s) && !s.dirty
    ensures Dormant(g, s.media, s.chain, s.fsize) == File(g, s)
  {
    OnDrive(g, s);
    hide Core, File, Secs, Content;
  }

  lemma BusyMore(g: Geometry, v: Vol, busy: set<Owner>, busy': set<Owner>, k: nat, dir: map<seq<byte>, M.Item>)
    requires DirShows(g, v, busy, k, dir) && busy <= busy'
    ensures DirShows(g, v, busy', k, dir)
  {
    hide Dormant, EntrySize, FatOpen.Folder, ReadOnly, Live, Name, Bindings;
  }

  /** A file that is closed again shows what the drive holds. */
  lemma BusyFewer(g: Geometry, v: Vol, busy: set<Owner>, o: Owner, k: nat, dir: map<seq<byte>, M.Item>)
    requires DirShows(g, v, busy, k, dir) && o.OfFile?
    requires o.dir == k && o.slot < |v.tabs[k]| && Live(v.tabs[k][o.slot]) && !FatOpen.Folder(v.tabs[k][o.slot]) ==>
               Name(v.tabs[k][o.slot]) in dir && o in v.own
               && ItemShows(g, v.snap.media, v.own, busy - {o}, o, v.tabs[k][o.slot], dir[Name(v.tabs[k][o.slot])])
    ensures DirShows(g, v, busy - {o}, k, dir)
  {
    hide *;
    DirShowsKeys(g, v, busy, k, dir);
    var slots := v.tabs[k];
    forall i | 0 <= i < |slots| && Live(slots[i])
      ensures Name(slots[i]) in dir
      ensures ItemShows(g, v.snap.media, v.own, busy - {o}, OfFile(k, i), slots[i], dir[Name(slots[i])])
    {
      DirShowsAt(g, v, busy, k, dir, i);
      if OfFile(k, i) != o || FatOpen.Folder(slots[i]) {
        ItemAnyway(g, v.snap.media, v.own, busy, busy - {o}, OfFile(k, i), slots[i], dir[Name(slots[i])]);
      }
    }
    DirShowsIntro(g, v, busy - {o}, k, dir);
  }

  lemma ItemAnyway(g: Geometry, media: seq<Sector>, own: map<Owner, seq<nat>>, busy: set<Owner>, busy': set<Owner>,
                   o: Owner, e: Slot, item: M.Item)
    requires ItemShows(g, media, own, busy, o, e, item) && (FatOpen.Folder(e) || (o in busy <==> o in busy'))
    ensures ItemShows(g, media, own, busy', o, e, item)
  {
    hide Dormant, EntrySize, FatOpen.Folder, ReadOnly;
  }

  /** An open adds a handle on the file as it is. */
  lemma AttachedWorld(g: Geometry, starts: seq<nat>, v: Vol, opens: seq<OpenFile>, w: M.World, x: OpenFile)
    requires Sys(g, starts, v, opens) && Shows(g, v, opens, w) && x.OpenFile? && OpenOK(g, v, x) && x.at !in Busy(opens)
    requires !x.state.dirty && NamesIt(g, SlotOf(v.tabs, x.at), x.state) && x.at.dir < |v.tabs|
    ensures Sys(g, starts, v, opens + [x]) && Shows(g, v, opens + [x], w.(open := w.open + [HandleOf(g, v.tabs, x)]))
  {
    hide *;
    var opens', w' := opens + [x], w.(open := w.open + [HandleOf(g, v.tabs, x)]);
    AttachedSys(g, starts, v, opens, x);
    SysIs(g, starts, v, opens);
    ShowsIs(g, v, opens, w);
    OpenIs(g, v, x);
    FileOKIs(g, x.state);
    DirInRange(g, v.own, v.tabs, Busy(opens), x.at);
    RegularIs(SlotOf(v.tabs, x.at));
    NamesItIs(g, SlotOf(v.tabs, x.at), x.state);
    DormantOf(g, x.state);
    DirShowsAt(g, v, Busy(opens), x.at.dir, w.dirs[x.at.dir], x.at.slot);
    PlainItem(g, v.snap.media, v.own, Busy(opens), x.at, SlotOf(v.tabs, x.at),
              w.dirs[x.at.dir][Name(SlotOf(v.tabs, x.at))]);
    DataIs(w.dirs, x.at.dir, Name(SlotOf(v.tabs, x.at)), File(g, x.state));
    HandleShowsIs(g, v.tabs, w.dirs, x, HandleOf(g, v.tabs, x));
    forall k | 0 <= k < |v.tabs|
      ensures DirShows(g, v, Busy(opens'), k, w.dirs[k])
    {
      BusyMore(g, v, Busy(opens), Busy(opens'), k, w.dirs[k]);
    }
    ShowsIs(g, v, opens', w');
  }

  lemma NamesItIs(g: Geometry, e: Slot, s: FState)
    requires NamesIt(g, e, s)
    ensures ClusterIn(g, e) == s.sclust && EntrySize(e) == s.fsize
  {
  }

  /** A close of a synchronised file leaves the file and takes the handle. */
  lemma ShutWorld(g: Geometry, starts: seq<nat>, v: Vol, opens: seq<OpenFile>, w: M.World, j: nat)
    requires Sys(g, starts, v, opens) && Shows(g, v, opens, w) && j < |opens| && opens[j].OpenFile? && !opens[j].written
    requires !opens[j].state.dirty
    ensures j < |w.open| && Sys(g, starts, v, opens[j := Shut])
    ensures Shows(g, v, opens[j := Shut], w.(open := w.open[j := M.Closed]))
  {
    hide *;
    var x, opens' := opens[j], opens[j := Shut];
    ShutSys(g, starts, v, opens, j);
    SysIs(g, starts, v, opens);
    ShowsIs(g, v, opens, w);
    HandleThere(g, starts, v, opens, w, j);
    OpenAt(g, v, opens, j);
    OpenIs(g, v, x);
    NamesItIs(g, SlotOf(v.tabs, x.at), x.state);
    DormantOf(g, x.state);
    HandleShowsIs(g, v.tabs, w.dirs, x, w.open[j]);
    DataIs(w.dirs, x.at.dir, Name(SlotOf(v.tabs, x.at)), File(g, x.state));
    DirShowsAt(g, v, Busy(opens), x.at.dir, w.dirs[x.at.dir], x.at.slot);
    PlainItem(g, v.snap.media, v.own, Busy(opens), x.at, SlotOf(v.tabs, x.at),
              w.dirs[x.at.dir][Name(SlotOf(v.tabs, x.at))]);
    IdleItem(g, v.snap.media, v.own, Busy(opens'), x.at, SlotOf(v.tabs, x.at),
             w.dirs[x.at.dir][Name(SlotOf(v.tabs, x.at))]);
    forall k | 0 <= k < |v.tabs|
      ensures DirShows(g, v, Busy(opens'), k, w.dirs[k])
    {
      BusyFewer(g, v, Busy(opens), x.at, k, w.dirs[k]);
    }
    HandleShut(g, v.tabs, w.dirs);
    ShowsIs(g, v, opens', w.(open := w.open[j := M.Closed]));
  }

  lemma HandleShut(g: Geometry, tabs: seq<seq<Slot>>, dirs: seq<map<seq<byte>, M.Item>>)
    ensures HandleShows(g, tabs, dirs, Shut, M.Closed)
  {
  }

  lemma IdleItem(g: Geometry, media: seq<Sector>, own: map<Owner, seq<nat>>, busy: set<Owner>, o: Owner, e: Slot,
                 item: M.Item)
    requires !FatOpen.Folder(e) && item.Plain? && item.readOnly == ReadOnly(e) && o in own
    requires item.data == Dormant(g, media, own[o], EntrySize(e))
    ensures ItemShows(g, media, own, busy, o, e, item)
  {
    hide Dormant, EntrySize, FatOpen.Folder, ReadOnly;
  }
}
