/** A mounted volume with open files as one invariant over values, what each operation does to it, and the
    simple form that it stands for: directories that map names to byte strings, and handles with positions. */
module FatWorld {
  import opened Bytes
  import opened FatEntry
  import opened FatVolume
  import opened FatHeap
  import opened FatChain
  import opened FatData
  import opened FatFileState
  import opened FatApart
  import opened FatDirState
  import opened FatOpen
  import opened FatHolders
  import FatFile

  // ---------- The invariant ----------

  /** A file object that is closed, or open on the file at a place in a directory. */
  datatype OpenFile = Shut
    | OpenFile(state: FState, at: Owner, canRead: bool, canWrite: bool, written: bool, sect: nat, off: nat)

  ghost function Busy(opens: seq<OpenFile>): set<Owner> {
    set j | 0 <= j < |opens| && opens[j].OpenFile? :: opens[j].at
  }

  ghost function SlotOf(tabs: seq<seq<Slot>>, o: Owner): Slot {
    if o.OfFile? && o.dir < |tabs| && o.slot < |tabs[o.dir]| then tabs[o.dir][o.slot] else Blank()
  }

  /** The files are the regular entries; a closed one fits its chain. */
  ghost predicate EntriesOK(g: Geometry, own: map<Owner, seq<nat>>, tabs: seq<seq<Slot>>, busy: set<Owner>) {
    && (forall o :: o in own ==> o.dir < |tabs| && (o.OfFile? ==>
                                                      o.slot < |tabs[o.dir]| && Regular(tabs[o.dir][o.slot])))
    && (forall k, i :: 0 <= k < |tabs| && 0 <= i < |tabs[k]| && Regular(tabs[k][i]) ==> OfFile(k, i) in own)
    && forall o :: o in own && o.OfFile? && o !in busy ==> Fits(g, SlotOf(tabs, o), own[o])
  }

  /** Sector and offset of slot `i`. */
  ghost predicate PlacedAt(g: Geometry, ch: seq<nat>, i: nat, sect: nat, off: nat) {
    Clusters(g, ch) && i / 16 < |TableSecs(g, ch)| && sect == TableSecs(g, ch)[i / 16] && off == 32 * (i % 16)
  }

  ghost predicate NamesIt(g: Geometry, e: Slot, s: FState) {
    ClusterIn(g, e) == s.sclust && EntrySize(e) == s.fsize
  }

  ghost predicate OpenOK(g: Geometry, v: Vol, x: OpenFile)
    requires x.OpenFile?
  {
    && x.at.OfFile? && x.at in v.own && v.own[x.at] == x.state.chain && OfDir(x.at.dir) in v.own
    && FileOK(g, x.state) && Tidy(g, x.state)
    && x.state.fat == v.fat && x.state.media == v.snap.media && x.state.winsect == v.snap.winsect
    && (x.state.dirty ==> x.written) && x.state.fptr <= x.state.fsize <= ALL_ONES
    && PlacedAt(g, v.own[OfDir(x.at.dir)], x.at.slot, x.sect, x.off)
    && (!x.written ==> NamesIt(g, SlotOf(v.tabs, x.at), x.state))
  }

  ghost predicate TablesOK(g: Geometry, starts: seq<nat>, v: Vol) {
    && |v.tabs| == |starts|
    && (forall k :: 0 <= k < |starts| ==>
          OfDir(k) in v.own && TableAt(g, v.fat, v.snap, starts[k], v.own[OfDir(k)], v.tabs[k]))
    && forall k, l :: 0 <= k < |starts| && 0 <= l < |starts| && k != l ==>
           v.own[OfDir(k)] != [] || v.own[OfDir(l)] != []
  }

  ghost predicate OpensOK(g: Geometry, v: Vol, opens: seq<OpenFile>) {
    && (forall j :: 0 <= j < |opens| && opens[j].OpenFile? ==> OpenOK(g, v, opens[j]))
    && forall j, l :: 0 <= j < |opens| && 0 <= l < |opens| && j != l && opens[j].OpenFile? && opens[l].OpenFile? ==>
           opens[j].at != opens[l].at
  }

  ghost predicate VolOK(g: Geometry, v: Vol) {
    && DataFits(g) && |v.fat| == g.nFatent && |v.snap.view| == |v.snap.media| == g.nsect
    && Held(v.fat, v.own) && WindowClear(g, v.fat, v.own, v.snap.winsect)
  }

  ghost predicate Sys(g: Geometry, starts: seq<nat>, v: Vol, opens: seq<OpenFile>) {
    VolOK(g, v) && TablesOK(g, starts, v) && EntriesOK(g, v.own, v.tabs, Busy(opens)) && OpensOK(g, v, opens)
  }

  lemma SysIs(g: Geometry, starts: seq<nat>, v: Vol, opens: seq<OpenFile>)
    ensures Sys(g, starts, v, opens) <==>
            VolOK(g, v) && TablesOK(g, starts, v) && EntriesOK(g, v.own, v.tabs, Busy(opens)) && OpensOK(g, v, opens)
  {
  }

  lemma VolIs(g: Geometry, v: Vol)
    ensures VolOK(g, v) <==>
            && DataFits(g) && |v.fat| == g.nFatent && |v.snap.view| == |v.snap.media| == g.nsect
            && Held(v.fat, v.own) && WindowClear(g, v.fat, v.own, v.snap.winsect)
    ensures VolOK(g, v) ==> g.Valid() && HeapOK(v.fat) && |v.snap.media| <= ALL_ONES
  {
    hide IsChain, Unlinked, WindowClear;
  }

  lemma TableIn(g: Geometry, starts: seq<nat>, v: Vol, k: nat)
    requires TablesOK(g, starts, v) && k < |starts|
    ensures |v.tabs| == |starts| && OfDir(k) in v.own
    ensures TableAt(g, v.fat, v.snap, starts[k], v.own[OfDir(k)], v.tabs[k])
  {
    hide TableAt;
  }

  lemma TablesTwo(g: Geometry, starts: seq<nat>, v: Vol, k: nat, l: nat)
    requires TablesOK(g, starts, v) && k < |starts| && l < |starts| && k != l
    ensures OfDir(k) in v.own && OfDir(l) in v.own && (v.own[OfDir(k)] != [] || v.own[OfDir(l)] != [])
  {
    hide TableAt;
  }

  lemma OpenAt(g: Geometry, v: Vol, opens: seq<OpenFile>, j: nat)
    requires OpensOK(g, v, opens) && j < |opens| && opens[j].OpenFile?
    ensures OpenOK(g, v, opens[j])
  {
    hide OpenOK;
  }

  lemma OpenIs(g: Geometry, v: Vol, x: OpenFile)
    requires x.OpenFile?
    ensures OpenOK(g, v, x) <==>
            && x.at.OfFile? && x.at in v.own && v.own[x.at] == x.state.chain && OfDir(x.at.dir) in v.own
            && FileOK(g, x.state) && Tidy(g, x.state)
            && x.state.fat == v.fat && x.state.media == v.snap.media && x.state.winsect == v.snap.winsect
            && (x.state.dirty ==> x.written) && x.state.fptr <= x.state.fsize <= ALL_ONES
            && PlacedAt(g, v.own[OfDir(x.at.dir)], x.at.slot, x.sect, x.off)
            && (!x.written ==> NamesIt(g, SlotOf(v.tabs, x.at), x.state))
  {
    hide FileOK, Tidy, PlacedAt, NamesIt, SlotOf;
  }

  // ---------- Steps ----------

  /** The same file object with the volume's new FAT, sectors and window. */
  ghost function Refreshed(x: OpenFile, f: seq<nat>, b: Snapshot): (y: OpenFile)
    ensures y.OpenFile? <==> x.OpenFile?
    ensures x.OpenFile? ==> y == x.(state := x.state.(fat := f, media := b.media, winsect := b.winsect))
  {
    if x.OpenFile? then x.(state := x.state.(fat := f, media := b.media, winsect := b.winsect)) else Shut
  }

  ghost function RefreshedAll(opens: seq<OpenFile>, f: seq<nat>, b: Snapshot): (r: seq<OpenFile>)
    ensures |r| == |opens| && forall j :: 0 <= j < |opens| ==> r[j] == Refreshed(opens[j], f, b)
  {
    seq(|opens|, j requires 0 <= j < |opens| => Refreshed(opens[j], f, b))
  }

  /** A step of the owners `who`, among their own clusters and free ones and in sectors of directory `k`. */
  ghost predicate StepOf(g: Geometry, starts: seq<nat>, v: Vol, who: set<Owner>, m: set<nat>, d: set<nat>, k: nat,
                         f: seq<nat>, b: Snapshot, own: map<Owner, seq<nat>>) {
    && VolOK(g, v) && TablesOK(g, starts, v) && Among(v.fat, v.own, m, who) && Within(g, m, d, v.fat, v.snap, f, b)
    && HeapOK(f) && ClosedIn(m, f) && Held(f, own) && Passed(v.fat, v.own, m, own)
    && k < |starts| && OfDir(k) in own && Clusters(g, own[OfDir(k)]) && TableOK(g, f, starts[k], own[OfDir(k)])
    && d <= Reach(g, own[OfDir(k)]) && forall p :: p in v.own && p !in who ==> p in own && own[p] == v.own[p]
  }

  lemma StepFacts(g: Geometry, starts: seq<nat>, v: Vol, who: set<Owner>, m: set<nat>, d: set<nat>, k: nat,
               f: seq<nat>, b: Snapshot, own: map<Owner, seq<nat>>)
    requires StepOf(g, starts, v, who, m, d, k, f, b, own)
    ensures VolOK(g, v) && TablesOK(g, starts, v) && Among(v.fat, v.own, m, who) && Within(g, m, d, v.fat, v.snap, f, b)
    ensures HeapOK(f) && ClosedIn(m, f) && Held(f, own) && Passed(v.fat, v.own, m, own)
    ensures k < |starts| && OfDir(k) in own && Clusters(g, own[OfDir(k)]) && TableOK(g, f, starts[k], own[OfDir(k)])
    ensures d <= Reach(g, own[OfDir(k)]) && forall p :: p in v.own && p !in who ==> p in own && own[p] == v.own[p]
  {
    hide VolOK, TablesOK, Among, Within, HeapOK, ClosedIn, Held, Passed, Clusters, TableOK, Reach;
  }

  lemma Apart(f: seq<nat>, own: map<Owner, seq<nat>>, o: Owner, p: Owner)
    requires Held(f, own) && o in own && p in own && o != p
    ensures NoneShared(own[o], own[p])
  {
    hide HeapOK, IsChain, Unlinked, NoneShared;
  }

  /** The sectors of directory `k` are in no file. */
  lemma DirNotInFile(g: Geometry, f: seq<nat>, own: map<Owner, seq<nat>>, start: nat, k: nat, p: Owner, x: nat)
    requires Held(f, own) && OfDir(k) in own && Clusters(g, own[OfDir(k)]) && TableOK(g, f, start, own[OfDir(k)])
    requires p in own && p != OfDir(k) && x in Reach(g, own[OfDir(k)])
    ensures !InChain(g, own[p], x)
  {
    Apart(f, own, OfDir(k), p);
    HeldAt(f, own, p);
    TableRange(g, f, start, own[OfDir(k)]);
    hide Held, HeapOK, InCluster, Reach, TableOK;
    forall c | c in own[p] && c >= 2 ensures !InCluster(g, c, x) { TableApart(g, f, start, own[OfDir(k)], c, x); }
  }

  /** An open file that the step is not about. */
  lemma OtherOpen(g: Geometry, starts: seq<nat>, v: Vol, who: set<Owner>, m: set<nat>, d: set<nat>, k: nat,
                  f: seq<nat>, b: Snapshot, own: map<Owner, seq<nat>>, x: OpenFile)
    requires StepOf(g, starts, v, who, m, d, k, f, b, own) && x.OpenFile? && OpenOK(g, v, x) && x.at !in who
    ensures FileOK(g, Refreshed(x, f, b).state) && SameBytes(g, x.state, Refreshed(x, f, b).state)
  {
    hide *;
    StepFacts(g, starts, v, who, m, d, k, f, b, own);
    VolIs(g, v);
    OpenIs(g, v, x);
    TableIn(g, starts, v, k);
    TableAtIs(g, v.fat, v.snap, starts[k], v.own[OfDir(k)], v.tabs[k]);
    var t, t' := x.state, Refreshed(x, f, b).state;
    Untouched(v.fat, v.own, m, who, x.at);
    forall y | y in d ensures !InChain(g, t.chain, y) { DirNotInFile(g, f, own, starts[k], k, x.at, y); }
    WindowAfter(g, v.fat, v.own, v.snap, m, who, d, f, own, b, starts[k], k);
    ClearApart(g, own, x.at, t');
    FileSurvives(g, m, d, v.snap, b, t, t');
  }

  /** A closed file that the step is not about. */
  lemma OtherDormant(g: Geometry, starts: seq<nat>, v: Vol, who: set<Owner>, m: set<nat>, d: set<nat>, k: nat,
                     f: seq<nat>, b: Snapshot, own: map<Owner, seq<nat>>, p: Owner, size: nat)
    requires StepOf(g, starts, v, who, m, d, k, f, b, own) && p in v.own && p.OfFile? && p !in who
    ensures Dormant(g, b.media, v.own[p], size) == Dormant(g, v.snap.media, v.own[p], size)
  {
    hide *;
    StepFacts(g, starts, v, who, m, d, k, f, b, own);
    VolIs(g, v);
    Untouched(v.fat, v.own, m, who, p);
    forall y | y in d ensures !InChain(g, v.own[p], y) { DirNotInFile(g, f, own, starts[k], k, p, y); }
    DormantStays(g, v.fat, v.own, v.snap, m, d, f, b, p, size);
  }

  /** A directory that the step is not about. */
  lemma OtherTable(g: Geometry, starts: seq<nat>, v: Vol, who: set<Owner>, m: set<nat>, d: set<nat>, k: nat,
                   f: seq<nat>, b: Snapshot, own: map<Owner, seq<nat>>, l: nat)
    requires StepOf(g, starts, v, who, m, d, k, f, b, own) && l < |starts| && OfDir(l) !in who && (l != k || d == {})
    requires l != k ==> OfDir(l) in v.own && OfDir(l) in own && (own[OfDir(k)] != [] || own[OfDir(l)] != [])
    ensures OfDir(l) in v.own && OfDir(l) in own && |v.tabs| == |starts|
    ensures TableAt(g, f, b, starts[l], own[OfDir(l)], v.tabs[l])
  {
    hide *;
    StepFacts(g, starts, v, who, m, d, k, f, b, own);
    VolIs(g, v);
    TableIn(g, starts, v, l);
    var ch := v.own[OfDir(l)];
    TableAtIs(g, v.fat, v.snap, starts[l], ch, v.tabs[l]);
    Untouched(v.fat, v.own, m, who, OfDir(l));
    if l != k {
      Apart(f, own, OfDir(k), OfDir(l));
      forall x | x in Reach(g, ch) ensures x !in d {
        var q := ReachIndex(g, ch, x);
        TablesApart(g, v.fat, f, starts[k], own[OfDir(k)], starts[l], ch, q);
      }
    }
    TableStays(g, v.fat, v.snap, starts[l], ch, v.tabs[l], m, d, f, b);
  }

  /** Directories keep their clusters, in order. */
  ghost predicate DirsGrow(own: map<Owner, seq<nat>>, own': map<Owner, seq<nat>>) {
    forall l :: OfDir(l) in own ==>
      OfDir(l) in own' && own[OfDir(l)] <= own'[OfDir(l)] && (own[OfDir(l)] == [] ==> own'[OfDir(l)] == [])
  }

  lemma PlacedMore(g: Geometry, ch: seq<nat>, ch': seq<nat>, i: nat, sect: nat, off: nat)
    requires PlacedAt(g, ch, i, sect, off) && Clusters(g, ch') && ch <= ch' && (ch == [] ==> ch' == [])
    ensures PlacedAt(g, ch', i, sect, off)
  {
    if ch != [] {
      SecsPrefix(g, ch', |ch|);
      assert ch'[..|ch|] == ch;
      var secs, secs' := Secs(g, ch), Secs(g, ch');
      assert secs'[..|secs|][i / 16] == secs'[i / 16];
    }
  }

  /** An open file that the step is not about is still open on its place. */
  lemma OpenAfter(g: Geometry, starts: seq<nat>, v: Vol, who: set<Owner>, m: set<nat>, d: set<nat>, k: nat,
                  f: seq<nat>, b: Snapshot, own: map<Owner, seq<nat>>, tabs: seq<seq<Slot>>, x: OpenFile)
    requires StepOf(g, starts, v, who, m, d, k, f, b, own) && x.OpenFile? && OpenOK(g, v, x) && x.at !in who
    requires DirsGrow(v.own, own) && SlotOf(tabs, x.at) == SlotOf(v.tabs, x.at)
    requires forall l :: OfDir(l) in v.own && OfDir(l) in own ==> Clusters(g, own[OfDir(l)])
    ensures OpenOK(g, Vol(f, b, own, tabs), Refreshed(x, f, b))
  {
    OtherOpen(g, starts, v, who, m, d, k, f, b, own, x);
    var y := Refreshed(x, f, b);
    StepFacts(g, starts, v, who, m, d, k, f, b, own);
    hide VolOK, TablesOK, FileOK, Tidy, PlacedAt, NamesIt, SlotOf, StepOf, Held, Passed, Among, Within, HeapOK,
        ClosedIn;
    hide TableOK;
    OpenIs(g, v, x);
    OpenIs(g, Vol(f, b, own, tabs), y);
    SameBytesIs(g, x.state, y.state);
    PlacedMore(g, v.own[OfDir(x.at.dir)], own[OfDir(x.at.dir)], x.at.slot, x.sect, x.off);
    NamedStill(g, SlotOf(v.tabs, x.at), x.state, y.state);
  }

  lemma SameBytesIs(g: Geometry, t: FState, t': FState)
    requires SameBytes(g, t, t')
    ensures Core(g, t) && Core(g, t') && File(g, t') == File(g, t) && Tidy(g, t')
    ensures (forall e: nat :: Matched(g, t', e) <==> Matched(g, t, e)) && (Good(g, t') <==> Good(g, t))
  {
    hide Core, File, Tidy, Matched, Good;
  }

  lemma NamedStill(g: Geometry, e: Slot, s: FState, s': FState)
    requires s'.sclust == s.sclust && s'.fsize == s.fsize
    ensures NamesIt(g, e, s) <==> NamesIt(g, e, s')
  {
  }

  /** The open files after a step: those that it is about as given, the others as they were. */
  ghost predicate OpensAfter(g: Geometry, v': Vol, who: set<Owner>, opens: seq<OpenFile>, opens': seq<OpenFile>) {
    && |opens'| == |opens|
    && forall j :: 0 <= j < |opens| ==>
         if opens[j].OpenFile? && opens[j].at in who then
             opens'[j].OpenFile? && opens'[j].at == opens[j].at && OpenOK(g, v', opens'[j])
         else opens'[j] == Refreshed(opens[j], v'.fat, v'.snap)
  }

  /** The directories after a step. */
  ghost predicate TabsAfter(g: Geometry, starts: seq<nat>, v: Vol, who: set<Owner>, k: nat, v': Vol) {
    && |v'.tabs| == |v.tabs| == |starts| && k < |starts| && OfDir(k) in v'.own
    && (forall l :: 0 <= l < |starts| && l != k ==> v'.tabs[l] == v.tabs[l] && OfDir(l) !in who)
    && TableAt(g, v'.fat, v'.snap, starts[k], v'.own[OfDir(k)], v'.tabs[k])
    && (forall j :: SlotOf(v'.tabs, j) == SlotOf(v.tabs, j) || j in who || j !in v.own)
  }

  lemma TabsAfterIs(g: Geometry, starts: seq<nat>, v: Vol, who: set<Owner>, k: nat, v': Vol)
    requires TabsAfter(g, starts, v, who, k, v')
    ensures |v'.tabs| == |v.tabs| == |starts| && k < |starts| && OfDir(k) in v'.own
    ensures forall l :: 0 <= l < |starts| && l != k ==> v'.tabs[l] == v.tabs[l] && OfDir(l) !in who
    ensures TableAt(g, v'.fat, v'.snap, starts[k], v'.own[OfDir(k)], v'.tabs[k])
    ensures forall j :: SlotOf(v'.tabs, j) == SlotOf(v.tabs, j) || j in who || j !in v.own
  {
    hide TableAt, SlotOf;
  }

  lemma TablesAfter(g: Geometry, starts: seq<nat>, v: Vol, who: set<Owner>, m: set<nat>, d: set<nat>, k: nat, v': Vol)
    requires StepOf(g, starts, v, who, m, d, k, v'.fat, v'.snap, v'.own) && TabsAfter(g, starts, v, who, k, v')
    requires DirsGrow(v.own, v'.own)
    ensures TablesOK(g, starts, v')
    ensures forall l: nat :: OfDir(l) in v.own && l < |starts| && OfDir(l) in v'.own ==> Clusters(g, v'.own[OfDir(l)])
  {
    StepFacts(g, starts, v, who, m, d, k, v'.fat, v'.snap, v'.own);
    TabsAfterIs(g, starts, v, who, k, v');
    hide StepOf, VolOK, TableAt, Held, Passed, Among, Within, HeapOK, ClosedIn, TableOK, TabsAfter, Clusters, TablesOK;
    forall l | 0 <= l < |starts|
      ensures OfDir(l) in v'.own && OfDir(l) in v.own
      ensures TableAt(g, v'.fat, v'.snap, starts[l], v'.own[OfDir(l)], v'.tabs[l])
      ensures Clusters(g, v'.own[OfDir(l)])
    {
      TableIn(g, starts, v, l);
      if l != k {
        TablesTwo(g, starts, v, k, l);
        OtherTable(g, starts, v, who, m, d, k, v'.fat, v'.snap, v'.own, l);
        TableAtIs(g, v'.fat, v'.snap, starts[l], v'.own[OfDir(l)], v'.tabs[l]);
      }
    }
    forall l, n | 0 <= l < |starts| && 0 <= n < |starts| && l != n
      ensures v'.own[OfDir(l)] != [] || v'.own[OfDir(n)] != []
    {
      TablesTwo(g, starts, v, l, n);
    }
    TablesIntro(g, starts, v');
  }

  lemma TablesIntro(g: Geometry, starts: seq<nat>, v: Vol)
    requires |v.tabs| == |starts|
    requires forall k :: 0 <= k < |starts| ==>
              OfDir(k) in v.own && TableAt(g, v.fat, v.snap, starts[k], v.own[OfDir(k)], v.tabs[k])
    requires forall k, l :: 0 <= k < |starts| && 0 <= l < |starts| && k != l ==>
              v.own[OfDir(k)] != [] || v.own[OfDir(l)] != []
    ensures TablesOK(g, starts, v)
  {
    hide TableAt;
  }

  lemma DirInRange(g: Geometry, own: map<Owner, seq<nat>>, tabs: seq<seq<Slot>>, busy: set<Owner>, o: Owner)
    requires EntriesOK(g, own, tabs, busy) && o in own
    ensures o.dir < |tabs|
    ensures o.OfFile? ==>
              o.slot < |tabs[o.dir]| && Regular(tabs[o.dir][o.slot]) && SlotOf(tabs, o) == tabs[o.dir][o.slot]
    ensures o.OfFile? && o !in busy ==> Fits(g, SlotOf(tabs, o), own[o])
  {
    hide Regular, Fits;
  }

  /** After a step the whole volume is in order again. */
  lemma SysAfter(g: Geometry, starts: seq<nat>, v: Vol, opens: seq<OpenFile>, who: set<Owner>, m: set<nat>, d: set<nat>,
                 k: nat, v': Vol, opens': seq<OpenFile>)
    requires Sys(g, starts, v, opens) && StepOf(g, starts, v, who, m, d, k, v'.fat, v'.snap, v'.own)
    requires TabsAfter(g, starts, v, who, k, v') && DirsGrow(v.own, v'.own) && OpensAfter(g, v', who, opens, opens')
    requires EntriesOK(g, v'.own, v'.tabs, Busy(opens))
    ensures Sys(g, starts, v', opens') && Busy(opens') == Busy(opens)
  {
    hide *;
    SysIs(g, starts, v, opens);
    StepFacts(g, starts, v, who, m, d, k, v'.fat, v'.snap, v'.own);
    TablesAfter(g, starts, v, who, m, d, k, v');
    TabsAfterIs(g, starts, v, who, k, v');
    VolAfter(g, starts, v, who, m, d, k, v');
    DirsInRange(g, v.own, v.tabs, Busy(opens));
    OpensAfterIs(g, v', who, opens, opens');
    forall j | 0 <= j < |opens| && opens[j].OpenFile?
      ensures opens'[j].OpenFile? && opens'[j].at == opens[j].at && OpenOK(g, v', opens'[j])
    {
      if opens[j].at !in who {
        OpenAt(g, v, opens, j);
        OpenIs(g, v, opens[j]);
        OpenAfter(g, starts, v, who, m, d, k, v'.fat, v'.snap, v'.own, v'.tabs, opens[j]);
      }
    }
    OpensAgain(g, v, v', opens, opens');
    SysIs(g, starts, v', opens');
  }

  lemma DirsInRange(g: Geometry, own: map<Owner, seq<nat>>, tabs: seq<seq<Slot>>, busy: set<Owner>)
    requires EntriesOK(g, own, tabs, busy)
    ensures forall l: nat :: OfDir(l) in own ==> l < |tabs|
  {
    hide Regular, Fits;
    forall l: nat | OfDir(l) in own ensures l < |tabs| { assert OfDir(l).dir < |tabs|; }
  }

  lemma OpensAfterIs(g: Geometry, v': Vol, who: set<Owner>, opens: seq<OpenFile>, opens': seq<OpenFile>)
    requires OpensAfter(g, v', who, opens, opens')
    ensures |opens'| == |opens|
    ensures forall j :: 0 <= j < |opens| ==>
              if opens[j].OpenFile? && opens[j].at in who then
                  opens'[j].OpenFile? && opens'[j].at == opens[j].at && OpenOK(g, v', opens'[j])
              else opens'[j] == Refreshed(opens[j], v'.fat, v'.snap)
  {
    hide OpenOK, Refreshed;
  }

  lemma OpensAgain(g: Geometry, v: Vol, v': Vol, opens: seq<OpenFile>, opens': seq<OpenFile>)
    requires OpensOK(g, v, opens) && |opens'| == |opens|
    requires forall j :: 0 <= j < |opens| ==> (opens'[j].OpenFile? <==> opens[j].OpenFile?)
    requires forall j :: 0 <= j < |opens| && opens[j].OpenFile? ==>
              opens'[j].at == opens[j].at && OpenOK(g, v', opens'[j])
    ensures OpensOK(g, v', opens') && Busy(opens') == Busy(opens)
  {
    hide OpenOK;
  }

  lemma VolAfter(g: Geometry, starts: seq<nat>, v: Vol, who: set<Owner>, m: set<nat>, d: set<nat>, k: nat, v': Vol)
    requires StepOf(g, starts, v, who, m, d, k, v'.fat, v'.snap, v'.own)
    ensures VolOK(g, v')
  {
    hide *;
    StepFacts(g, starts, v, who, m, d, k, v'.fat, v'.snap, v'.own);
    VolIs(g, v);
    WithinIs(g, m, d, v.fat, v.snap, v'.fat, v'.snap);
    WindowAfter(g, v.fat, v.own, v.snap, m, who, d, v'.fat, v'.own, v'.snap, starts[k], k);
    VolIs(g, v');
  }

  // ---------- A call on an open file ----------

  lemma MineAmong(f: seq<nat>, own: map<Owner, seq<nat>>, o: Owner)
    requires o in own
    ensures Among(f, own, Mine(f, own[o]), {o})
  {
  }

  /** What the chain of a sound file is. */
  lemma ChainIs(g: Geometry, s: FState)
    requires Core(g, s)
    ensures HeapOK(s.fat) && (s.chain != [] ==> IsChain(s.fat, s.chain) && Unlinked(s.fat, s.chain[0]))
    ensures forall c :: c in s.chain ==> c in Mine(s.fat, s.chain)
  {
  }

  lemma FilePassed(f: seq<nat>, own: map<Owner, seq<nat>>, m: set<nat>, o: Owner, ch: seq<nat>)
    requires o in own && o.OfFile? && forall c :: c in ch ==> c in m
    ensures Passed(f, own, m, own[o := ch]) && DirsGrow(own, own[o := ch])
  {
  }

  /** A call on an open file is a step of that file; `d` is the sector of its entry, or nothing. */
  lemma CallStep(g: Geometry, starts: seq<nat>, v: Vol, x: OpenFile, s: FState, b: Snapshot, d: set<nat>)
    requires VolOK(g, v) && TablesOK(g, starts, v) && x.OpenFile? && OpenOK(g, v, x) && x.at.dir < |starts|
    requires (d == {} || d == {x.sect})
    requires Core(g, s) && Local(g, x.state, v.snap, s, b, d) && s.media == b.media && s.winsect == b.winsect
    ensures StepOf(g, starts, v, {x.at}, Mine(v.fat, x.state.chain), d, x.at.dir, s.fat, b, v.own[x.at := s.chain])
    ensures DirsGrow(v.own, v.own[x.at := s.chain]) && OfDir(x.at.dir) in v.own
    ensures v.own[x.at := s.chain][OfDir(x.at.dir)] == v.own[OfDir(x.at.dir)]
  {
    hide *;
    VolIs(g, v);
    OpenIs(g, v, x);
    LocalIs(g, x.state, v.snap, s, b, d);
    ChainIs(g, s);
    var o, k, m, own := x.at, x.at.dir, Mine(v.fat, x.state.chain), v.own[x.at := s.chain];
    MineClosed(g, s, m);
    WithinIs(g, m, d, v.fat, v.snap, s.fat, b);
    MineAmong(v.fat, v.own, o);
    HeldAfter(v.fat, v.own, s.fat, m, {o}, o, s.chain);
    FilePassed(v.fat, v.own, m, o, s.chain);
    TableIn(g, starts, v, k);
    var ch := v.own[OfDir(k)];
    TableAtIs(g, v.fat, v.snap, starts[k], ch, v.tabs[k]);
    Untouched(v.fat, v.own, m, {o}, OfDir(k));
    TableSurvives(g, m, d, v.fat, v.snap, s.fat, b, starts[k], ch);
    PlacedIs(g, ch, o.slot, x.sect, x.off);
    StepIntro(g, starts, v, {o}, m, d, k, s.fat, b, own);
  }

  lemma PlacedIs(g: Geometry, ch: seq<nat>, i: nat, sect: nat, off: nat)
    requires PlacedAt(g, ch, i, sect, off)
    ensures Clusters(g, ch) && i / 16 < |TableSecs(g, ch)| && sect == TableSecs(g, ch)[i / 16] && off == 32 * (i % 16)
    ensures sect in Reach(g, ch)
  {
  }

  lemma StepIntro(g: Geometry, starts: seq<nat>, v: Vol, who: set<Owner>, m: set<nat>, d: set<nat>, k: nat,
                  f: seq<nat>, b: Snapshot, own: map<Owner, seq<nat>>)
    requires VolOK(g, v) && TablesOK(g, starts, v) && Among(v.fat, v.own, m, who)
    requires Within(g, m, d, v.fat, v.snap, f, b)
    requires HeapOK(f) && ClosedIn(m, f) && Held(f, own) && Passed(v.fat, v.own, m, own)
    requires k < |starts| && OfDir(k) in own && Clusters(g, own[OfDir(k)]) && TableOK(g, f, starts[k], own[OfDir(k)])
    requires d <= Reach(g, own[OfDir(k)]) && forall p :: p in v.own && p !in who ==> p in own && own[p] == v.own[p]
    ensures StepOf(g, starts, v, who, m, d, k, f, b, own)
  {
  }

  /** The entries after a call: the same files, the one that the call is about still open. */
  lemma EntriesAfterCall(g: Geometry, own: map<Owner, seq<nat>>, tabs: seq<seq<Slot>>, busy: set<Owner>, o: Owner,
                         ch: seq<nat>)
    requires EntriesOK(g, own, tabs, busy) && o in own && o in busy
    ensures EntriesOK(g, own[o := ch], tabs, busy)
  {
    hide Regular, Fits;
  }

  /** The volume after a call that does not touch the directories. */
  lemma CallSys(g: Geometry, starts: seq<nat>, v: Vol, opens: seq<OpenFile>, j: nat, y: OpenFile, b: Snapshot)
    requires Sys(g, starts, v, opens) && j < |opens| && opens[j].OpenFile? && y.OpenFile?
    requires y == opens[j].(state := y.state, written := y.written) && FileOK(g, y.state) && Tidy(g, y.state)
    requires Local(g, opens[j].state, v.snap, y.state, b, {}) && y.state.media == b.media
    requires y.state.winsect == b.winsect
    requires (y.state.dirty ==> y.written) && y.state.fptr <= y.state.fsize <= ALL_ONES
    requires || y.written
             || (y.state.sclust == opens[j].state.sclust && y.state.fsize == opens[j].state.fsize && !opens[j].written)
    ensures Sys(g, starts, Vol(y.state.fat, b, v.own[y.at := y.state.chain], v.tabs),
                RefreshedAll(opens, y.state.fat, b)[j := y])
    ensures Busy(RefreshedAll(opens, y.state.fat, b)[j := y]) == Busy(opens)
    ensures y.at in v.own && y.at.dir < |starts|
    ensures StepOf(g, starts, v, {y.at}, Mine(v.fat, opens[j].state.chain), {}, y.at.dir, y.state.fat, b,
                   v.own[y.at := y.state.chain])
    ensures var v' := Vol(y.state.fat, b, v.own[y.at := y.state.chain], v.tabs);
            && TabsAfter(g, starts, v, {y.at}, y.at.dir, v')
            && OpensAfter(g, v', {y.at}, opens, RefreshedAll(opens, y.state.fat, b)[j := y])
    ensures OpenOK(g, Vol(y.state.fat, b, v.own[y.at := y.state.chain], v.tabs), y)
  {
    hide *;
    var x, f, own := opens[j], y.state.fat, v.own[y.at := y.state.chain];
    var v', opens' := Vol(f, b, own, v.tabs), RefreshedAll(opens, f, b)[j := y];
    SysIs(g, starts, v, opens);
    OpenAt(g, v, opens, j);
    OpenIs(g, v, x);
    FileOKIs(g, y.state);
    DirInRange(g, v.own, v.tabs, Busy(opens), x.at);
    TablesSize(g, starts, v);
    CallStep(g, starts, v, x, y.state, b, {});
    CallTable(g, starts, v, x, y.state, b);
    if !y.written { NamedStill(g, SlotOf(v.tabs, x.at), x.state, y.state); }
    OpenIs(g, v', y);
    BusyAt(opens, j);
    EntriesAfterCall(g, v.own, v.tabs, Busy(opens), x.at, y.state.chain);
    OneCalled(g, v, v', opens, j, y);
    SysAfter(g, starts, v, opens, {y.at}, Mine(v.fat, x.state.chain), {}, y.at.dir, v', opens');
  }

  lemma TablesSize(g: Geometry, starts: seq<nat>, v: Vol)
    requires TablesOK(g, starts, v)
    ensures |v.tabs| == |starts|
  {
  }

  lemma BusyAt(opens: seq<OpenFile>, j: nat)
    requires j < |opens| && opens[j].OpenFile?
    ensures opens[j].at in Busy(opens)
  {
  }

  lemma CallTable(g: Geometry, starts: seq<nat>, v: Vol, x: OpenFile, s: FState, b: Snapshot)
    requires x.OpenFile? && x.at.OfFile? && x.at.dir < |starts|
    requires StepOf(g, starts, v, {x.at}, Mine(v.fat, x.state.chain), {}, x.at.dir, s.fat, b, v.own[x.at := s.chain])
    ensures TabsAfter(g, starts, v, {x.at}, x.at.dir, Vol(s.fat, b, v.own[x.at := s.chain], v.tabs))
  {
    hide *;
    var own := v.own[x.at := s.chain];
    StepFacts(g, starts, v, {x.at}, Mine(v.fat, x.state.chain), {}, x.at.dir, s.fat, b, own);
    TablesSize(g, starts, v);
    OtherTable(g, starts, v, {x.at}, Mine(v.fat, x.state.chain), {}, x.at.dir, s.fat, b, own, x.at.dir);
    TabsAfterIntro(g, starts, v, {x.at}, x.at.dir, Vol(s.fat, b, own, v.tabs));
  }

  lemma TabsAfterIntro(g: Geometry, starts: seq<nat>, v: Vol, who: set<Owner>, k: nat, v': Vol)
    requires |v'.tabs| == |v.tabs| == |starts| && k < |starts| && OfDir(k) in v'.own
    requires forall l :: 0 <= l < |starts| && l != k ==> v'.tabs[l] == v.tabs[l] && OfDir(l) !in who
    requires TableAt(g, v'.fat, v'.snap, starts[k], v'.own[OfDir(k)], v'.tabs[k])
    requires forall j :: SlotOf(v'.tabs, j) == SlotOf(v.tabs, j) || j in who || j !in v.own
    ensures TabsAfter(g, starts, v, who, k, v')
  {
    hide TableAt, SlotOf;
  }

  lemma OneCalled(g: Geometry, v: Vol, v': Vol, opens: seq<OpenFile>, j: nat, y: OpenFile)
    requires OpensOK(g, v, opens) && j < |opens| && opens[j].OpenFile? && y.OpenFile? && y.at == opens[j].at
    requires OpenOK(g, v', y)
    ensures OpensAfter(g, v', {y.at}, opens, RefreshedAll(opens, v'.fat, v'.snap)[j := y])
  {
    hide OpenOK, Refreshed;
  }

  // ---------- Synchronising an open file ----------

  /** The entry as a synchronisation writes it: the same file, with the size and cluster given. */
  lemma UpdatedSlot(g: Geometry, e: Slot, size: nat, clust: nat, tm: nat)
    requires g.Valid() && size < 0x1_0000_0000 && tm < 0x1_0000_0000 && clust < g.nFatent
    ensures var r: Slot := UpdatedEntry(e, size, clust, tm);
            && Name(r) == Name(e) && EntrySize(r) == size && ClusterIn(g, r) == clust
            && (Live(r) <==> Live(e)) && (FatOpen.Folder(r) <==> FatOpen.Folder(e)) && (ReadOnly(r) <==> ReadOnly(e))
  {
    hide *;
    SmallCluster(g, clust);
    UpdatedEntryIs(e, size, clust, tm);
    UpdatedAttribute(e, size, clust, tm);
    var r: Slot := UpdatedEntry(e, size, clust, tm);
    ArchivedIs(e[11]);
    SlotIs(g, e);
    SlotIs(g, r);
    FirstByte(e, r);
    LowWord(r[26], r[27], r[20], r[21]);
  }

  lemma FirstByte(e: Slot, r: Slot)
    requires r[..11] == e[..11]
    ensures r[0] == e[0]
  {
    assert r[..11][0] == r[0] && e[..11][0] == e[0];
  }

  lemma SlotIs(g: Geometry, e: Slot)
    ensures Name(e) == e[..11] && (Live(e) <==> e[0] != 0xE5 && e[0] != 0 && e[11] / 8 % 2 == 0)
    ensures (FatOpen.Folder(e) <==> e[11] / 16 % 2 == 1) && (ReadOnly(e) <==> e[11] % 2 == 1)
    ensures EntryCluster(e) == LdWord(e[26], e[27]) + 0x1_0000 * LdWord(e[20], e[21])
    ensures ClusterIn(g, e) == LdWord(e[26], e[27]) + if g.fsType == FAT32 then 0x1_0000 * LdWord(e[20], e[21]) else 0
  {
    hide LdWord;
  }

  lemma SmallCluster(g: Geometry, clust: nat)
    requires g.Valid() && clust < g.nFatent
    ensures clust < 0x1000_0000 && (g.fsType != FAT32 ==> clust < 0x1_0000)
  {
  }

  lemma UpdatedAttribute(e: seq<byte>, size: nat, clust: nat, tm: nat)
    requires |e| == 32 && size < 0x1_0000_0000 && tm < 0x1_0000_0000
    ensures UpdatedEntry(e, size, clust, tm)[11] == Archived(e[11])
  {
    hide Splice, StWord, StDword, Archived;
  }

  lemma EvenMore(n: int, k: int)
    ensures (n + 2 * k) % 2 == n % 2
  {
  }

  lemma ArchivedIs(a: byte)
    ensures Archived(a) / 8 % 2 == a / 8 % 2 && Archived(a) / 16 % 2 == a / 16 % 2 && Archived(a) % 2 == a % 2
  {
    var n: int := a;
    if n / 32 % 2 == 0 {
      assert (n + 32) / 8 == n / 8 + 4;
      assert (n + 32) / 16 == n / 16 + 2;
      EvenMore(n / 8, 2);
      EvenMore(n / 16, 1);
      EvenMore(n, 16);
    }
  }

  lemma LowWord(a: byte, b: byte, c: byte, d: byte)
    ensures LdWord(a, b) + 0x1_0000 * LdWord(c, d) < 0x1_0000 ==> LdWord(c, d) == 0
  {
  }

  /** One slot of one directory replaced. */
  ghost function Replaced(tabs: seq<seq<Slot>>, o: Owner, e: Slot): (r: seq<seq<Slot>>)
    ensures |r| == |tabs|
  {
    if o.OfFile? && o.dir < |tabs| && o.slot < |tabs[o.dir]| then
      var slots: seq<Slot> := tabs[o.dir][o.slot := e];
      tabs[o.dir := slots]
    else tabs
  }

  lemma ReplacedIs(tabs: seq<seq<Slot>>, o: Owner, e: Slot)
    requires o.OfFile? && o.dir < |tabs| && o.slot < |tabs[o.dir]|
    ensures Replaced(tabs, o, e)[o.dir] == tabs[o.dir][o.slot := e] && SlotOf(Replaced(tabs, o, e), o) == e
    ensures forall l :: 0 <= l < |tabs| && l != o.dir ==> Replaced(tabs, o, e)[l] == tabs[l]
    ensures forall p :: p != o ==> SlotOf(Replaced(tabs, o, e), p) == SlotOf(tabs, p)
  {
  }

  lemma EntriesAfterSync(g: Geometry, own: map<Owner, seq<nat>>, tabs: seq<seq<Slot>>, busy: set<Owner>, o: Owner,
                         e: Slot)
    requires EntriesOK(g, own, tabs, busy) && o in own && o.OfFile? && o in busy && Regular(e)
    ensures EntriesOK(g, own, Replaced(tabs, o, e), busy)
  {
    DirInRange(g, own, tabs, busy, o);
    ReplacedIs(tabs, o, e);
    var tabs' := Replaced(tabs, o, e);
    hide Regular, Fits, Replaced, SlotOf;
    forall p | p in own
      ensures p.dir < |tabs'| && (p.OfFile? ==> p.slot < |tabs'[p.dir]| && Regular(tabs'[p.dir][p.slot]))
    {
      DirInRange(g, own, tabs, busy, p);
    }
  }

  /** The volume after a synchronisation that brought the entry up to date. */
  lemma SyncSys(g: Geometry, starts: seq<nat>, v: Vol, opens: seq<OpenFile>, j: nat, y: OpenFile, b: Snapshot,
                tm: dword)
    requires Sys(g, starts, v, opens) && j < |opens| && opens[j].OpenFile? && y.OpenFile? && !y.written
    requires y == opens[j].(state := y.state, written := y.written) && FileOK(g, y.state) && Tidy(g, y.state)
    requires !y.state.dirty
    requires Local(g, opens[j].state, v.snap, y.state, b, {opens[j].sect}) && y.state.media == b.media
    requires y.state.winsect == b.winsect
    requires y.state.chain == opens[j].state.chain && y.state.fptr <= y.state.fsize <= ALL_ONES
    requires y.state.sclust == opens[j].state.sclust && y.state.fsize == opens[j].state.fsize < 0x1_0000_0000
    requires FatFile.EntryUpdated(v.snap.view, b.view, y.sect, y.off, y.state.fsize, y.state.sclust, tm)
    ensures var e := UpdatedEntry(SlotOf(v.tabs, y.at), y.state.fsize, y.state.sclust, tm);
            var v' := Vol(y.state.fat, b, v.own[y.at := y.state.chain], Replaced(v.tabs, y.at, e));
            && Sys(g, starts, v', RefreshedAll(opens, y.state.fat, b)[j := y])
            && Busy(RefreshedAll(opens, y.state.fat, b)[j := y]) == Busy(opens)
    ensures y.at in v.own && y.at.dir < |starts|
    ensures StepOf(g, starts, v, {y.at}, Mine(v.fat, opens[j].state.chain), {y.sect}, y.at.dir, y.state.fat, b,
                   v.own[y.at := y.state.chain])
    ensures var e := UpdatedEntry(SlotOf(v.tabs, y.at), y.state.fsize, y.state.sclust, tm);
            var v' := Vol(y.state.fat, b, v.own[y.at := y.state.chain], Replaced(v.tabs, y.at, e));
            && TabsAfter(g, starts, v, {y.at}, y.at.dir, v')
            && OpensAfter(g, v', {y.at}, opens, RefreshedAll(opens, y.state.fat, b)[j := y]) && OpenOK(g, v', y)
  {
    hide *;
    var x, f, own, e0 := opens[j], y.state.fat, v.own[y.at := y.state.chain], SlotOf(v.tabs, y.at);
    var e: Slot := UpdatedEntry(e0, y.state.fsize, y.state.sclust, tm);
    var v', opens' := Vol(f, b, own, Replaced(v.tabs, y.at, e)), RefreshedAll(opens, f, b)[j := y];
    SysIs(g, starts, v, opens);
    VolIs(g, v);
    OpenAt(g, v, opens, j);
    OpenIs(g, v, x);
    FileOKIs(g, y.state);
    DirInRange(g, v.own, v.tabs, Busy(opens), x.at);
    TablesSize(g, starts, v);
    CallStep(g, starts, v, x, y.state, b, {x.sect});
    StartSmall(g, y.state);
    SmallCluster(g, y.state.sclust);
    WithinLocal(g, x.state, v.snap, y.state, b, {x.sect});
    UpdatedSlot(g, e0, y.state.fsize, y.state.sclust, tm);
    RegularIs(e0);
    RegularIs(e);
    SyncTable(g, starts, v, x, y.state, b, e, tm);
    ReplacedIs(v.tabs, y.at, e);
    NamesItIntro(g, e, y.state);
    OpenIs(g, v', y);
    BusyAt(opens, j);
    EntriesAfterSync(g, v.own, v.tabs, Busy(opens), x.at, e);
    EntriesAfterCall(g, v.own, v'.tabs, Busy(opens), x.at, y.state.chain);
    OneCalled(g, v, v', opens, j, y);
    SysAfter(g, starts, v, opens, {y.at}, Mine(v.fat, x.state.chain), {x.sect}, y.at.dir, v', opens');
  }

  lemma StartSmall(g: Geometry, s: FState)
    requires Core(g, s)
    ensures s.sclust < g.nFatent && |s.fat| == g.nFatent
  {
  }

  lemma WithinLocal(g: Geometry, s: FState, a: Snapshot, s': FState, b: Snapshot, d: set<nat>)
    requires Local(g, s, a, s', b, d)
    ensures |b.view| == |a.view| && |b.media| == |a.media|
  {
  }

  lemma RegularIs(e: Slot)
    ensures Regular(e) <==> Live(e) && !FatOpen.Folder(e)
  {
  }

  lemma NamesItIntro(g: Geometry, e: Slot, s: FState)
    requires ClusterIn(g, e) == s.sclust && EntrySize(e) == s.fsize
    ensures NamesIt(g, e, s)
  {
  }

  /** The directory of the entry that was brought up to date. */
  lemma SyncTable(g: Geometry, starts: seq<nat>, v: Vol, x: OpenFile, s: FState, b: Snapshot, e: Slot, tm: dword)
    requires VolOK(g, v) && TablesOK(g, starts, v) && x.OpenFile? && OpenOK(g, v, x) && x.at.dir < |starts|
    requires x.at.slot < |v.tabs[x.at.dir]|
    requires StepOf(g, starts, v, {x.at}, Mine(v.fat, x.state.chain), {x.sect}, x.at.dir, s.fat, b,
                    v.own[x.at := s.chain])
    requires s.fsize < 0x1_0000_0000 && s.sclust < 0x1000_0000
    requires FatFile.EntryUpdated(v.snap.view, b.view, x.sect, x.off, s.fsize, s.sclust, tm)
    requires e == UpdatedEntry(SlotOf(v.tabs, x.at), s.fsize, s.sclust, tm) && Live(SlotOf(v.tabs, x.at)) && Live(e)
    requires Name(e) == Name(SlotOf(v.tabs, x.at))
    ensures TabsAfter(g, starts, v, {x.at}, x.at.dir, Vol(s.fat, b, v.own[x.at := s.chain], Replaced(v.tabs, x.at, e)))
  {
    hide *;
    OpenIs(g, v, x);
    VolIs(g, v);
    var own, k, i := v.own[x.at := s.chain], x.at.dir, x.at.slot;
    StepFacts(g, starts, v, {x.at}, Mine(v.fat, x.state.chain), {x.sect}, k, s.fat, b, own);
    TablesSize(g, starts, v);
    TableIn(g, starts, v, k);
    var ch, slots := v.own[OfDir(k)], v.tabs[k];
    TableAtIs(g, v.fat, v.snap, starts[k], ch, slots);
    Untouched(v.fat, v.own, Mine(v.fat, x.state.chain), {x.at}, OfDir(k));
    PlacedIs(g, ch, i, x.sect, x.off);
    SlotOfIs(v.tabs, x.at);
    RewrittenIntro(slots, i, e);
    WithinIs(g, Mine(v.fat, x.state.chain), {x.sect}, v.fat, v.snap, s.fat, b);
    SlotAtIs(v.snap.view, TableSecs(g, ch), i);
    UpdatedThere(v.snap.view, b.view, x.sect, x.off, s.fsize, s.sclust, tm);
    TableUpdated(g, v.fat, v.snap, starts[k], ch, slots, Mine(v.fat, x.state.chain), s.fat, b, i, e);
    ReplacedIs(v.tabs, x.at, e);
    TabsAfterIntro(g, starts, v, {x.at}, k, Vol(s.fat, b, own, Replaced(v.tabs, x.at, e)));
  }

  lemma SlotOfIs(tabs: seq<seq<Slot>>, o: Owner)
    requires o.OfFile? && o.dir < |tabs| && o.slot < |tabs[o.dir]|
    ensures SlotOf(tabs, o) == tabs[o.dir][o.slot]
  {
  }

  lemma UpdatedThere(v: seq<Sector>, v': seq<Sector>, sect: nat, off: nat, size: nat, clust: nat, tm: nat)
    requires FatFile.EntryUpdated(v, v', sect, off, size, clust, tm)
    ensures |v'| == |v| && sect < |v| && off + 32 <= 512 && size < 0x1_0000_0000 && tm < 0x1_0000_0000
    ensures v'[sect] == Splice(v[sect], off, UpdatedEntry(v[sect][off..off + 32], size, clust, tm))
  {
  }

  // ---------- An operation on a directory ----------

  lemma DirPassed(f: seq<nat>, own: map<Owner, seq<nat>>, m: set<nat>, k: nat, ch: seq<nat>)
    requires OfDir(k) in own && own[OfDir(k)] <= ch && (own[OfDir(k)] == [] ==> ch == [])
    ensures Passed(f, own, m, own[OfDir(k) := ch]) && DirsGrow(own, own[OfDir(k) := ch])
  {
    forall c | c in own[OfDir(k)] ensures c in ch {
      var i :| 0 <= i < |own[OfDir(k)]| && own[OfDir(k)][i] == c;
      assert ch[i] == c;
    }
  }

  lemma DirMine(g: Geometry, f: seq<nat>, start: nat, ch: seq<nat>)
    requires TableOK(g, f, start, ch)
    ensures HeapOK(f) && (ch != [] ==> IsChain(f, ch)) && forall c :: c in ch ==> c in Mine(f, ch)
  {
  }

  /** An operation on directory `k` is a step of that directory. */
  lemma DirStep(g: Geometry, starts: seq<nat>, v: Vol, k: nat, f: seq<nat>, b: Snapshot, ch: seq<nat>)
    requires VolOK(g, v) && TablesOK(g, starts, v) && k < |starts| && OfDir(k) in v.own
    requires DirStays(g, v.fat, v.own[OfDir(k)], v.snap, f, ch, b) && TableOK(g, f, starts[k], ch)
    ensures Clusters(g, ch)
    ensures StepOf(g, starts, v, {OfDir(k)}, Mine(v.fat, v.own[OfDir(k)]), Reach(g, ch), k, f, b, v.own[OfDir(k) := ch])
    ensures DirsGrow(v.own, v.own[OfDir(k) := ch])
  {
    hide *;
    VolIs(g, v);
    var dch, own := v.own[OfDir(k)], v.own[OfDir(k) := ch];
    var m := Mine(v.fat, dch);
    DirStaysIs(g, v.fat, dch, v.snap, f, ch, b);
    DirStaysRoot(g, v.fat, dch, v.snap, f, ch, b);
    WithinIs(g, m, Reach(g, ch), v.fat, v.snap, f, b);
    TableClosed(g, f, starts[k], ch);
    DirMine(g, f, starts[k], ch);
    MineAmong(v.fat, v.own, OfDir(k));
    HeldAfter(v.fat, v.own, f, m, {OfDir(k)}, OfDir(k), ch);
    DirPassed(v.fat, v.own, m, k, ch);
    StepIntro(g, starts, v, {OfDir(k)}, m, Reach(g, ch), k, f, b, own);
  }

  lemma DirStaysRoot(g: Geometry, f: seq<nat>, ch: seq<nat>, a: Snapshot, f': seq<nat>, ch': seq<nat>, b: Snapshot)
    requires DirStays(g, f, ch, a, f', ch', b)
    ensures ch == [] ==> ch' == []
    ensures Clusters(g, ch) && b.direct <= a.direct
    ensures forall x :: x in Reach(g, ch') && x !in Reach(g, ch) ==> x !in b.direct
  {
    hide Within, Mine, Reach;
  }

  /** The table after it. */
  lemma DirTable(g: Geometry, f: seq<nat>, a: Snapshot, start: nat, ch: seq<nat>, slots: seq<Slot>, f': seq<nat>,
                 ch': seq<nat>, b: Snapshot, slots': seq<Slot>)
    requires TableAt(g, f, a, start, ch, slots) && DirStays(g, f, ch, a, f', ch', b) && TableOK(g, f', start, ch')
    requires Clusters(g, ch')
    requires SectorsIn(b.view, TableSecs(g, ch')) && slots' == Slots(b.view, TableSecs(g, ch')) && DirOK(slots')
    ensures TableAt(g, f', b, start, ch', slots')
  {
    hide *;
    TableAtIs(g, f, a, start, ch, slots);
    DirStaysIs(g, f, ch, a, f', ch', b);
    DirStaysRoot(g, f, ch, a, f', ch', b);
    WithinIs(g, Mine(f, ch), Reach(g, ch'), f, a, f', b);
    TableAtIntro(g, f', b, start, ch', slots');
  }

  lemma PassedMore(f: seq<nat>, own0: map<Owner, seq<nat>>, m: set<nat>, own: map<Owner, seq<nat>>, o: Owner)
    requires Passed(f, own0, m, own) && DirsGrow(own0, own) && o.OfFile?
    ensures Passed(f, own0, m, own[o := []]) && DirsGrow(own0, own[o := []])
    ensures Passed(f, own0, m, own - {o}) && DirsGrow(own0, own - {o})
  {
  }

  lemma AmongMore(f: seq<nat>, own: map<Owner, seq<nat>>, m: set<nat>, who: set<Owner>, o: Owner)
    requires Among(f, own, m, who)
    ensures Among(f, own, m, who + {o})
  {
  }

  /** The same step when a new owner without clusters comes in. */
  lemma StepMore(g: Geometry, starts: seq<nat>, v: Vol, who: set<Owner>, m: set<nat>, d: set<nat>, k: nat,
                 f: seq<nat>, b: Snapshot, own: map<Owner, seq<nat>>, o: Owner)
    requires StepOf(g, starts, v, who, m, d, k, f, b, own) && o !in v.own && o !in own && o.OfFile?
    requires DirsGrow(v.own, own)
    ensures StepOf(g, starts, v, who, m, d, k, f, b, own[o := []]) && DirsGrow(v.own, own[o := []])
  {
    hide *;
    StepFacts(g, starts, v, who, m, d, k, f, b, own);
    HeldMore(f, own, o);
    PassedMore(v.fat, v.own, m, own, o);
    StepIntro(g, starts, v, who, m, d, k, f, b, own[o := []]);
  }

  /** The same step when a file goes. */
  lemma StepLess(g: Geometry, starts: seq<nat>, v: Vol, who: set<Owner>, m: set<nat>, d: set<nat>, k: nat,
                 f: seq<nat>, b: Snapshot, own: map<Owner, seq<nat>>, o: Owner)
    requires StepOf(g, starts, v, who, m, d, k, f, b, own) && o.OfFile? && DirsGrow(v.own, own)
    ensures StepOf(g, starts, v, who + {o}, m, d, k, f, b, own - {o}) && DirsGrow(v.own, own - {o})
  {
    hide *;
    StepFacts(g, starts, v, who, m, d, k, f, b, own);
    HeldLess(f, own, o);
    PassedMore(v.fat, v.own, m, own, o);
    AmongMore(v.fat, v.own, m, who, o);
    StepIntro(g, starts, v, who + {o}, m, d, k, f, b, own - {o});
  }

  /** No open file is among the owners that the step is about. */
  lemma NoneCalled(g: Geometry, v: Vol, v': Vol, opens: seq<OpenFile>, who: set<Owner>)
    requires who !! Busy(opens)
    ensures OpensAfter(g, v', who, opens, RefreshedAll(opens, v'.fat, v'.snap))
  {
    hide OpenOK, Refreshed;
    forall j | 0 <= j < |opens| && opens[j].OpenFile? ensures opens[j].at !in who { BusyAt(opens, j); }
  }

  /** The volume after an operation on directory `k`. */
  lemma DirSys(g: Geometry, starts: seq<nat>, v: Vol, opens: seq<OpenFile>, k: nat, who: set<Owner>, m: set<nat>,
               d: set<nat>, v': Vol)
    requires Sys(g, starts, v, opens) && StepOf(g, starts, v, who, m, d, k, v'.fat, v'.snap, v'.own)
    requires DirsGrow(v.own, v'.own)
    requires TabsAfter(g, starts, v, who, k, v') && EntriesOK(g, v'.own, v'.tabs, Busy(opens)) && who !! Busy(opens)
    ensures Sys(g, starts, v', RefreshedAll(opens, v'.fat, v'.snap))
    ensures Busy(RefreshedAll(opens, v'.fat, v'.snap)) == Busy(opens)
  {
    hide *;
    NoneCalled(g, v, v', opens, who);
    SysAfter(g, starts, v, opens, who, m, d, k, v', RefreshedAll(opens, v'.fat, v'.snap));
  }

  // ---------- What becomes of the entries ----------

  lemma BlankIs()
    ensures !Regular(Blank()) && !Live(Blank())
  {
  }

  /** Blank slots at the end are no files. */
  lemma EntriesExtended(g: Geometry, own: map<Owner, seq<nat>>, tabs: seq<seq<Slot>>, busy: set<Owner>, k: nat,
                        ch: seq<nat>, slots: seq<Slot>)
    requires EntriesOK(g, own, tabs, busy) && k < |tabs| && OfDir(k) in own && Extended(tabs[k], slots)
    ensures EntriesOK(g, own[OfDir(k) := ch], tabs[k := slots], busy)
    ensures forall o :: o in own ==> SlotOf(tabs[k := slots], o) == SlotOf(tabs, o)
  {
    BlankIs();
    hide Regular, Fits, Blank;
    var tabs' := tabs[k := slots];
    forall o | o in own
      ensures o.dir < |tabs'| && (o.OfFile? ==> o.slot < |tabs'[o.dir]| && Regular(tabs'[o.dir][o.slot]))
      ensures SlotOf(tabs', o) == SlotOf(tabs, o)
    {
      DirInRange(g, own, tabs, busy, o);
    }
  }

  lemma FreeIsNoFile(g: Geometry, own: map<Owner, seq<nat>>, tabs: seq<seq<Slot>>, busy: set<Owner>, o: Owner)
    requires EntriesOK(g, own, tabs, busy) && o.OfFile? && o.dir < |tabs|
    requires o.slot < |tabs[o.dir]| ==> Free(tabs[o.dir][o.slot])
    ensures o !in own
  {
    hide Fits;
  }

  /** A new entry is a new file without clusters. */
  lemma EntriesPlaced(g: Geometry, own: map<Owner, seq<nat>>, tabs: seq<seq<Slot>>, busy: set<Owner>, k: nat,
                      ch: seq<nat>, slots: seq<Slot>, i: nat, e: Slot)
    requires EntriesOK(g, own, tabs, busy) && k < |tabs| && OfDir(k) in own && Placed(tabs[k], slots, i, e)
    requires Regular(e) && Fits(g, e, [])
    ensures OfFile(k, i) !in own
    ensures EntriesOK(g, own[OfDir(k) := ch][OfFile(k, i) := []], tabs[k := slots], busy)
    ensures forall o :: o in own ==> SlotOf(tabs[k := slots], o) == SlotOf(tabs, o)
    ensures SlotOf(tabs[k := slots], OfFile(k, i)) == e
  {
    BlankIs();
    var o1 := OfFile(k, i);
    FreeIsNoFile(g, own, tabs, busy, o1);
    hide Regular, Fits, Blank, Free;
    var tabs' := tabs[k := slots];
    forall o | o in own
      ensures o.dir < |tabs'| && (o.OfFile? ==> o.slot < |tabs'[o.dir]| && Regular(tabs'[o.dir][o.slot]))
      ensures SlotOf(tabs', o) == SlotOf(tabs, o)
    {
      DirInRange(g, own, tabs, busy, o);
    }
  }

  lemma DeletedIs()
    ensures !Regular(Deleted()) && !Live(Deleted())
  {
  }

  /** A struck entry is a file no more. */
  lemma EntriesStruck(g: Geometry, own: map<Owner, seq<nat>>, tabs: seq<seq<Slot>>, busy: set<Owner>, k: nat,
                      ch: seq<nat>, i: nat)
    requires EntriesOK(g, own, tabs, busy) && k < |tabs| && i < |tabs[k]| && OfDir(k) in own
    ensures EntriesOK(g, own[OfDir(k) := ch] - {OfFile(k, i)}, Replaced(tabs, OfFile(k, i), Deleted()), busy)
  {
    DeletedIs();
    var o1 := OfFile(k, i);
    ReplacedIs(tabs, o1, Deleted());
    var tabs', own' := Replaced(tabs, o1, Deleted()), own[OfDir(k) := ch] - {o1};
    hide Regular, Fits, Deleted, Replaced, SlotOf;
    forall o | o in own'
      ensures o.dir < |tabs'| && (o.OfFile? ==> o.slot < |tabs'[o.dir]| && Regular(tabs'[o.dir][o.slot]))
    {
      DirInRange(g, own, tabs, busy, o);
    }
    forall o | o in own' && o.OfFile? && o !in busy
      ensures Fits(g, SlotOf(tabs', o), own'[o])
    {
      DirInRange(g, own, tabs, busy, o);
    }
  }

  /** An emptied entry is a file without clusters. */
  lemma EntriesEmptied(g: Geometry, own: map<Owner, seq<nat>>, tabs: seq<seq<Slot>>, busy: set<Owner>, o: Owner,
                       e: Slot)
    requires EntriesOK(g, own, tabs, busy) && o in own && o.OfFile? && Regular(e) && Fits(g, e, [])
    ensures EntriesOK(g, own[o := []], Replaced(tabs, o, e), busy)
  {
    DirInRange(g, own, tabs, busy, o);
    ReplacedIs(tabs, o, e);
    var tabs', own' := Replaced(tabs, o, e), own[o := []];
    hide Regular, Fits, Replaced, SlotOf;
    forall p | p in own'
      ensures p.dir < |tabs'| && (p.OfFile? ==> p.slot < |tabs'[p.dir]| && Regular(tabs'[p.dir][p.slot]))
    {
      DirInRange(g, own, tabs, busy, p);
    }
    forall p | p in own' && p.OfFile? && p !in busy ensures Fits(g, SlotOf(tabs', p), own'[p]) {
      if p != o { DirInRange(g, own, tabs, busy, p); }
    }
  }

  // ---------- The operations on a directory ----------

  lemma FreedClosed(f: seq<nat>, dch: seq<nat>, ch: seq<nat>, f': seq<nat>)
    requires FreedChain(f, f', ch) && (dch != [] ==> IsChain(f, dch)) && NoneShared(dch, ch)
    ensures ClosedIn(Mine(f, dch) + ToSet(ch), f')
  {
    var m := Mine(f, dch) + ToSet(ch);
    forall c | c in m && c < |f'| ensures f'[c] == 0 || f'[c] in m || f'[c] >= |f'| {
      if c in dch && c !in ch {
        var i :| 0 <= i < |dch| && dch[i] == c;
        if i < |dch| - 1 { assert dch[i + 1] in dch; }
      }
    }
  }

  lemma BothAmong(f: seq<nat>, own: map<Owner, seq<nat>>, o: Owner, p: Owner)
    requires Held(f, own) && o in own && p in own
    ensures Among(f, own, Mine(f, own[o]) + ToSet(own[p]), {o, p})
  {
    HeldAt(f, own, p);
  }

  lemma EmptiedPassed(f: seq<nat>, own: map<Owner, seq<nat>>, m: set<nat>, o: Owner)
    requires o.OfFile?
    ensures Passed(f, own, m, own[o := []]) && DirsGrow(own, own[o := []])
  {
  }

  /** Emptying a file is a step of the directory and of the file. */
  lemma EmptiedStep(g: Geometry, starts: seq<nat>, v: Vol, k: nat, o: Owner, f: seq<nat>, b: Snapshot)
    requires VolOK(g, v) && TablesOK(g, starts, v) && k < |starts| && OfDir(k) in v.own && o in v.own && o.OfFile?
    requires FreedChain(v.fat, f, v.own[o]) && Clusters(g, v.own[OfDir(k)]) && TableOK(g, f, starts[k], v.own[OfDir(k)])
    requires Within(g, Mine(v.fat, v.own[OfDir(k)]) + ToSet(v.own[o]), Reach(g, v.own[OfDir(k)]), v.fat, v.snap, f, b)
    ensures StepOf(g, starts, v, {OfDir(k), o}, Mine(v.fat, v.own[OfDir(k)]) + ToSet(v.own[o]),
                   Reach(g, v.own[OfDir(k)]), k, f, b, v.own[o := []])
    ensures DirsGrow(v.own, v.own[o := []])
  {
    hide *;
    VolIs(g, v);
    var dch, ch := v.own[OfDir(k)], v.own[o];
    var m := Mine(v.fat, dch) + ToSet(ch);
    TableData(g, f, starts[k], dch);
    HeldAt(v.fat, v.own, OfDir(k));
    Apart(v.fat, v.own, OfDir(k), o);
    FreedClosed(v.fat, dch, ch, f);
    BothAmong(v.fat, v.own, OfDir(k), o);
    HeldFreed(v.fat, v.own, f, o);
    EmptiedPassed(v.fat, v.own, m, o);
    StepIntro(g, starts, v, {OfDir(k), o}, m, Reach(g, dch), k, f, b, v.own[o := []]);
  }

  /** The table, its chain and its slots after an operation on directory `k`. */
  ghost predicate DirNow(g: Geometry, starts: seq<nat>, k: nat, f: seq<nat>, b: Snapshot, ch: seq<nat>,
                         slots: seq<Slot>) {
    && k < |starts| && TableOK(g, f, starts[k], ch) && Clusters(g, ch) && SectorsIn(b.view, TableSecs(g, ch))
    && slots == Slots(b.view, TableSecs(g, ch)) && DirOK(slots)
  }

  lemma DirNowIs(g: Geometry, starts: seq<nat>, k: nat, f: seq<nat>, b: Snapshot, ch: seq<nat>, slots: seq<Slot>)
    requires DirNow(g, starts, k, f, b, ch, slots)
    ensures k < |starts| && TableOK(g, f, starts[k], ch) && Clusters(g, ch) && SectorsIn(b.view, TableSecs(g, ch))
    ensures slots == Slots(b.view, TableSecs(g, ch)) && DirOK(slots)
  {
    hide TableOK, SectorsIn, Slots, DirOK;
  }

  /** The directory was searched, and perhaps stretched. */
  lemma SearchedSys(g: Geometry, starts: seq<nat>, v: Vol, opens: seq<OpenFile>, k: nat, f: seq<nat>, b: Snapshot,
                    ch: seq<nat>, slots: seq<Slot>)
    requires Sys(g, starts, v, opens) && DirNow(g, starts, k, f, b, ch, slots) && k < |v.tabs| && OfDir(k) in v.own
    requires DirStays(g, v.fat, v.own[OfDir(k)], v.snap, f, ch, b) && Extended(v.tabs[k], slots)
    ensures Sys(g, starts, Vol(f, b, v.own[OfDir(k) := ch], v.tabs[k := slots]), RefreshedAll(opens, f, b))
    ensures StepOf(g, starts, v, {OfDir(k)}, Mine(v.fat, v.own[OfDir(k)]), Reach(g, ch), k, f, b, v.own[OfDir(k) := ch])
    ensures var v' := Vol(f, b, v.own[OfDir(k) := ch], v.tabs[k := slots]);
            && TabsAfter(g, starts, v, {OfDir(k)}, k, v')
            && OpensAfter(g, v', {OfDir(k)}, opens, RefreshedAll(opens, f, b)) && {OfDir(k)} !! Busy(opens)
    ensures Busy(RefreshedAll(opens, f, b)) == Busy(opens)
  {
    hide *;
    SysIs(g, starts, v, opens);
    DirNowIs(g, starts, k, f, b, ch, slots);
    TablesSize(g, starts, v);
    TableIn(g, starts, v, k);
    DirStep(g, starts, v, k, f, b, ch);
    DirTable(g, v.fat, v.snap, starts[k], v.own[OfDir(k)], v.tabs[k], f, ch, b, slots);
    EntriesExtended(g, v.own, v.tabs, Busy(opens), k, ch, slots);
    var v' := Vol(f, b, v.own[OfDir(k) := ch], v.tabs[k := slots]);
    TabsAfterIntro(g, starts, v, {OfDir(k)}, k, v');
    NotBusy(g, v, opens, OfDir(k));
    NoneCalled(g, v, v', opens, {OfDir(k)});
    DirSys(g, starts, v, opens, k, {OfDir(k)}, Mine(v.fat, v.own[OfDir(k)]), Reach(g, ch), v');
  }

  /** A directory is no open file. */
  lemma NotBusy(g: Geometry, v: Vol, opens: seq<OpenFile>, o: Owner)
    requires OpensOK(g, v, opens) && o.OfDir?
    ensures o !in Busy(opens)
  {
    hide OpenOK;
    forall j | 0 <= j < |opens| && opens[j].OpenFile? ensures opens[j].at != o {
      OpenAt(g, v, opens, j);
      OpenIs(g, v, opens[j]);
    }
  }

  /** A new entry was made. */
  lemma CreatedSys(g: Geometry, starts: seq<nat>, v: Vol, opens: seq<OpenFile>, k: nat, f: seq<nat>, b: Snapshot,
                   ch: seq<nat>, slots: seq<Slot>, i: nat, e: Slot)
    requires Sys(g, starts, v, opens) && DirNow(g, starts, k, f, b, ch, slots) && k < |v.tabs| && OfDir(k) in v.own
    requires DirStays(g, v.fat, v.own[OfDir(k)], v.snap, f, ch, b) && Placed(v.tabs[k], slots, i, e) && Regular(e)
    requires Fits(g, e, [])
    ensures OfFile(k, i) !in v.own && OfFile(k, i) !in Busy(opens)
    ensures Sys(g, starts, Vol(f, b, v.own[OfDir(k) := ch][OfFile(k, i) := []], v.tabs[k := slots]),
                RefreshedAll(opens, f, b))
    ensures StepOf(g, starts, v, {OfDir(k)}, Mine(v.fat, v.own[OfDir(k)]), Reach(g, ch), k, f, b,
                   v.own[OfDir(k) := ch][OfFile(k, i) := []])
    ensures var v' := Vol(f, b, v.own[OfDir(k) := ch][OfFile(k, i) := []], v.tabs[k := slots]);
            && TabsAfter(g, starts, v, {OfDir(k)}, k, v')
            && OpensAfter(g, v', {OfDir(k)}, opens, RefreshedAll(opens, f, b)) && {OfDir(k)} !! Busy(opens)
    ensures Busy(RefreshedAll(opens, f, b)) == Busy(opens)
  {
    hide *;
    SysIs(g, starts, v, opens);
    DirNowIs(g, starts, k, f, b, ch, slots);
    TablesSize(g, starts, v);
    TableIn(g, starts, v, k);
    DirStep(g, starts, v, k, f, b, ch);
    DirTable(g, v.fat, v.snap, starts[k], v.own[OfDir(k)], v.tabs[k], f, ch, b, slots);
    EntriesPlaced(g, v.own, v.tabs, Busy(opens), k, ch, slots, i, e);
    StepMore(g, starts, v, {OfDir(k)}, Mine(v.fat, v.own[OfDir(k)]), Reach(g, ch), k, f, b, v.own[OfDir(k) := ch],
             OfFile(k, i));
    var v' := Vol(f, b, v.own[OfDir(k) := ch][OfFile(k, i) := []], v.tabs[k := slots]);
    TabsAfterIntro(g, starts, v, {OfDir(k)}, k, v');
    NotBusy(g, v, opens, OfDir(k));
    BusyOwns(g, v, opens);
    NoneCalled(g, v, v', opens, {OfDir(k)});
    DirSys(g, starts, v, opens, k, {OfDir(k)}, Mine(v.fat, v.own[OfDir(k)]), Reach(g, ch), v');
  }

  lemma BusyOwns(g: Geometry, v: Vol, opens: seq<OpenFile>)
    requires OpensOK(g, v, opens)
    ensures forall o :: o in Busy(opens) ==> o in v.own && o.OfFile?
  {
    hide OpenOK;
    forall j | 0 <= j < |opens| && opens[j].OpenFile? ensures opens[j].at in v.own && opens[j].at.OfFile? {
      OpenAt(g, v, opens, j);
      OpenIs(g, v, opens[j]);
    }
  }

  /** The entry of a closed file was marked deleted. */
  lemma StruckSys(g: Geometry, starts: seq<nat>, v: Vol, opens: seq<OpenFile>, k: nat, f: seq<nat>, b: Snapshot,
                  ch: seq<nat>, slots: seq<Slot>, i: nat)
    requires Sys(g, starts, v, opens) && DirNow(g, starts, k, f, b, ch, slots) && k < |v.tabs| && OfDir(k) in v.own
    requires i < |v.tabs[k]|
    requires DirStays(g, v.fat, v.own[OfDir(k)], v.snap, f, ch, b) && slots == v.tabs[k][i := Deleted()]
    requires OfFile(k, i) !in Busy(opens)
    ensures Sys(g, starts, Vol(f, b, v.own[OfDir(k) := ch] - {OfFile(k, i)}, Replaced(v.tabs, OfFile(k, i), Deleted())),
                RefreshedAll(opens, f, b))
    ensures StepOf(g, starts, v, {OfDir(k), OfFile(k, i)}, Mine(v.fat, v.own[OfDir(k)]), Reach(g, ch), k, f, b,
                   v.own[OfDir(k) := ch] - {OfFile(k, i)})
    ensures var v' := Vol(f, b, v.own[OfDir(k) := ch] - {OfFile(k, i)}, Replaced(v.tabs, OfFile(k, i), Deleted()));
            && TabsAfter(g, starts, v, {OfDir(k), OfFile(k, i)}, k, v')
            && OpensAfter(g, v', {OfDir(k), OfFile(k, i)}, opens, RefreshedAll(opens, f, b))
            && {OfDir(k), OfFile(k, i)} !! Busy(opens)
    ensures Busy(RefreshedAll(opens, f, b)) == Busy(opens)
  {
    hide *;
    SysIs(g, starts, v, opens);
    DirNowIs(g, starts, k, f, b, ch, slots);
    TablesSize(g, starts, v);
    TableIn(g, starts, v, k);
    DirStep(g, starts, v, k, f, b, ch);
    DirTable(g, v.fat, v.snap, starts[k], v.own[OfDir(k)], v.tabs[k], f, ch, b, slots);
    EntriesStruck(g, v.own, v.tabs, Busy(opens), k, ch, i);
    var o, own := OfFile(k, i), v.own[OfDir(k) := ch];
    var who := {OfDir(k), o};
    StepLess(g, starts, v, {OfDir(k)}, Mine(v.fat, v.own[OfDir(k)]), Reach(g, ch), k, f, b, own, o);
    assert {OfDir(k)} + {o} == who;
    var v' := Vol(f, b, own - {o}, Replaced(v.tabs, o, Deleted()));
    ReplacedIs(v.tabs, o, Deleted());
    TabsAfterIntro(g, starts, v, who, k, v');
    NotBusy(g, v, opens, OfDir(k));
    NoneCalled(g, v, v', opens, who);
    DirSys(g, starts, v, opens, k, who, Mine(v.fat, v.own[OfDir(k)]), Reach(g, ch), v');
  }

  /** A closed file was emptied. */
  lemma EmptiedSys(g: Geometry, starts: seq<nat>, v: Vol, opens: seq<OpenFile>, k: nat, f: seq<nat>, b: Snapshot,
                   slots: seq<Slot>, i: nat, e: Slot)
    requires Sys(g, starts, v, opens) && k < |v.tabs| && OfDir(k) in v.own
    requires DirNow(g, starts, k, f, b, v.own[OfDir(k)], slots)
    requires i < |v.tabs[k]| && OfFile(k, i) in v.own && OfFile(k, i) !in Busy(opens) && slots == v.tabs[k][i := e]
    requires Regular(e) && Fits(g, e, [])
    requires FreedChain(v.fat, f, v.own[OfFile(k, i)]) && b.direct == v.snap.direct && Clusters(g, v.own[OfDir(k)])
    requires Within(g, Mine(v.fat, v.own[OfDir(k)]) + ToSet(v.own[OfFile(k, i)]), Reach(g, v.own[OfDir(k)]), v.fat,
                    v.snap, f, b)
    ensures Sys(g, starts, Vol(f, b, v.own[OfFile(k, i) := []], Replaced(v.tabs, OfFile(k, i), e)),
                RefreshedAll(opens, f, b))
    ensures StepOf(g, starts, v, {OfDir(k), OfFile(k, i)}, Mine(v.fat, v.own[OfDir(k)]) + ToSet(v.own[OfFile(k, i)]),
                   Reach(g, v.own[OfDir(k)]), k, f, b, v.own[OfFile(k, i) := []])
    ensures var v' := Vol(f, b, v.own[OfFile(k, i) := []], Replaced(v.tabs, OfFile(k, i), e));
            && TabsAfter(g, starts, v, {OfDir(k), OfFile(k, i)}, k, v')
            && OpensAfter(g, v', {OfDir(k), OfFile(k, i)}, opens, RefreshedAll(opens, f, b))
            && {OfDir(k), OfFile(k, i)} !! Busy(opens)
    ensures Busy(RefreshedAll(opens, f, b)) == Busy(opens)
  {
    hide *;
    var o, dch := OfFile(k, i), v.own[OfDir(k)];
    var who, m := {OfDir(k), o}, Mine(v.fat, dch) + ToSet(v.own[o]);
    SysIs(g, starts, v, opens);
    DirNowIs(g, starts, k, f, b, dch, slots);
    TablesSize(g, starts, v);
    TableIn(g, starts, v, k);
    TableAtIs(g, v.fat, v.snap, starts[k], dch, v.tabs[k]);
    WithinIs(g, m, Reach(g, dch), v.fat, v.snap, f, b);
    TableAtIntro(g, f, b, starts[k], dch, slots);
    EmptiedStep(g, starts, v, k, o, f, b);
    EntriesEmptied(g, v.own, v.tabs, Busy(opens), o, e);
    var v' := Vol(f, b, v.own[o := []], Replaced(v.tabs, o, e));
    ReplacedIs(v.tabs, o, e);
    TabsAfterIntro(g, starts, v, who, k, v');
    NotBusy(g, v, opens, OfDir(k));
    NoneCalled(g, v, v', opens, who);
    DirSys(g, starts, v, opens, k, who, m, Reach(g, dch), v');
  }

  // ---------- Opening and closing ----------

  lemma BusyPlus(opens: seq<OpenFile>, x: OpenFile)
    requires x.OpenFile?
    ensures Busy(opens + [x]) == Busy(opens) + {x.at}
  {
    var opens' := opens + [x];
    forall j | 0 <= j < |opens'| && opens'[j].OpenFile? ensures opens'[j].at in Busy(opens) + {x.at} {
      if j < |opens| { BusyAt(opens, j); }
    }
    forall o | o in Busy(opens) + {x.at} ensures o in Busy(opens') {
      if o in Busy(opens) {
        var j :| 0 <= j < |opens| && opens[j].OpenFile? && opens[j].at == o;
        BusyAt(opens', j);
      } else {
        BusyAt(opens', |opens|);
      }
    }
  }

  lemma BusyLess(opens: seq<OpenFile>, j: nat)
    requires j < |opens| && opens[j].OpenFile?
    requires forall l :: 0 <= l < |opens| && l != j && opens[l].OpenFile? ==> opens[l].at != opens[j].at
    ensures Busy(opens[j := Shut]) == Busy(opens) - {opens[j].at}
  {
    var opens', o := opens[j := Shut], opens[j].at;
    forall l | 0 <= l < |opens'| && opens'[l].OpenFile? ensures opens'[l].at in Busy(opens) - {o} { BusyAt(opens, l); }
    forall p | p in Busy(opens) - {o} ensures p in Busy(opens') {
      var l :| 0 <= l < |opens| && opens[l].OpenFile? && opens[l].at == p;
      BusyAt(opens', l);
    }
  }

  lemma OpensPlus(g: Geometry, v: Vol, opens: seq<OpenFile>, x: OpenFile)
    requires OpensOK(g, v, opens) && x.OpenFile? && OpenOK(g, v, x) && x.at !in Busy(opens)
    ensures OpensOK(g, v, opens + [x])
  {
    hide OpenOK;
    forall j | 0 <= j < |opens| && opens[j].OpenFile? ensures opens[j].at != x.at { BusyAt(opens, j); }
  }

  lemma OpensLess(g: Geometry, v: Vol, opens: seq<OpenFile>, j: nat)
    requires OpensOK(g, v, opens) && j < |opens| && opens[j].OpenFile?
    ensures OpensOK(g, v, opens[j := Shut])
    ensures forall l :: 0 <= l < |opens| && l != j && opens[l].OpenFile? ==> opens[l].at != opens[j].at
  {
    hide OpenOK;
  }

  lemma EntriesFewer(g: Geometry, own: map<Owner, seq<nat>>, tabs: seq<seq<Slot>>, busy: set<Owner>, o: Owner)
    requires EntriesOK(g, own, tabs, busy)
    ensures EntriesOK(g, own, tabs, busy + {o})
    ensures o in own && Fits(g, SlotOf(tabs, o), own[o]) ==> EntriesOK(g, own, tabs, busy - {o})
  {
    hide Regular, Fits, SlotOf;
  }

  /** One more open file. */
  lemma AttachedSys(g: Geometry, starts: seq<nat>, v: Vol, opens: seq<OpenFile>, x: OpenFile)
    requires Sys(g, starts, v, opens) && x.OpenFile? && OpenOK(g, v, x) && x.at !in Busy(opens)
    ensures Sys(g, starts, v, opens + [x]) && Busy(opens + [x]) == Busy(opens) + {x.at}
  {
    hide *;
    SysIs(g, starts, v, opens);
    BusyPlus(opens, x);
    OpensPlus(g, v, opens, x);
    EntriesFewer(g, v.own, v.tabs, Busy(opens), x.at);
    SysIs(g, starts, v, opens + [x]);
  }

  /** One open file less: it is synchronised, so its entry fits. */
  lemma ShutSys(g: Geometry, starts: seq<nat>, v: Vol, opens: seq<OpenFile>, j: nat)
    requires Sys(g, starts, v, opens) && j < |opens| && opens[j].OpenFile? && !opens[j].written
    ensures Sys(g, starts, v, opens[j := Shut]) && Busy(opens[j := Shut]) == Busy(opens) - {opens[j].at}
  {
    hide *;
    SysIs(g, starts, v, opens);
    OpenAt(g, v, opens, j);
    ShutFits(g, v, opens[j]);
    OpensLess(g, v, opens, j);
    BusyLess(opens, j);
    EntriesFewer(g, v.own, v.tabs, Busy(opens), opens[j].at);
    SysIs(g, starts, v, opens[j := Shut]);
  }

  lemma ShutFits(g: Geometry, v: Vol, x: OpenFile)
    requires x.OpenFile? && OpenOK(g, v, x) && !x.written
    ensures x.at in v.own && Fits(g, SlotOf(v.tabs, x.at), v.own[x.at])
  {
    CoreIs(g, x.state);
    hide SlotOf, ClusterIn, EntrySize, HeapOK, Unlinked, WindowApart, BufferOK, Tidy, Positioned, PlacedAt;
  }
}
