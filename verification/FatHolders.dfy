/** Who holds the clusters of a volume: directories, and files by their place in a directory, whether they
    are open or not. What a step does to one of them, and that it leaves the others alone. */
module FatHolders {
  import opened Bytes
  import opened FatEntry
  import opened FatVolume
  import opened FatHeap
  import opened FatChain
  import opened FatData
  import opened FatFileState
  import opened FatApart
  import opened FatDirState
  import opened FatOpen

  datatype Owner = OfDir(dir: nat) | OfFile(dir: nat, slot: nat)

  /** Every owner has a chain of its own, or none; nothing links to the first cluster of a file. */
  ghost predicate Held(f: seq<nat>, own: map<Owner, seq<nat>>) {
    && HeapOK(f)
    && (forall o :: o in own && own[o] != [] ==> IsChain(f, own[o]) && (o.OfFile? ==> Unlinked(f, own[o][0])))
    && forall o, p :: o in own && p in own && o != p ==> NoneShared(own[o], own[p])
  }

  /** The clusters `m` are free or belong to one of these owners. */
  ghost predicate Among(f: seq<nat>, own: map<Owner, seq<nat>>, m: set<nat>, who: set<Owner>) {
    forall c :: c in m ==> 2 <= c < |f| && (f[c] == 0 || exists o :: o in who && o in own && c in own[o])
  }

  lemma HeldAt(f: seq<nat>, own: map<Owner, seq<nat>>, o: Owner)
    requires Held(f, own) && o in own
    ensures HeapOK(f) && (own[o] != [] ==> IsChain(f, own[o]) && (o.OfFile? ==> Unlinked(f, own[o][0])))
    ensures forall c :: c in own[o] ==> 2 <= c < |f| && f[c] != 0
  {
    if own[o] != [] { ChainUsed(f, own[o]); }
  }

  lemma Untouched(f: seq<nat>, own: map<Owner, seq<nat>>, m: set<nat>, who: set<Owner>, p: Owner)
    requires Held(f, own) && Among(f, own, m, who) && p in own && p !in who
    ensures forall c :: c in own[p] ==> c !in m
  {
    HeldAt(f, own, p);
    hide HeapOK, IsChain, Unlinked;
    forall o | o in who && o in own ensures NoneShared(own[o], own[p]) { }
  }

  /** A chain outside `m` is still one, and still nothing links to its head. */
  lemma ChainStays(f: seq<nat>, f': seq<nat>, m: set<nat>, ch: seq<nat>)
    requires |f'| == |f| && ClosedIn(m, f') && IsChain(f, ch) && (forall c :: c in ch ==> c !in m)
    requires forall c :: 2 <= c < |f| && c !in m ==> f'[c] == f[c]
    ensures IsChain(f', ch) && (Unlinked(f, ch[0]) ==> Unlinked(f', ch[0]))
  {
    forall i | 0 <= i < |ch| ensures f'[ch[i]] == f[ch[i]] { assert ch[i] in ch; }
    if Unlinked(f, ch[0]) {
      assert ch[0] in ch;
      forall d | 2 <= d < |f'| ensures f'[d] != ch[0] {
        if d in m { assert f'[d] == 0 || f'[d] in m || f'[d] >= |f'|; }
      }
    }
  }

  /** After a step of owner `o` among its own and free clusters, everybody still has what is theirs. */
  lemma HeldAfter(f: seq<nat>, own: map<Owner, seq<nat>>, f': seq<nat>, m: set<nat>, who: set<Owner>, o: Owner,
                  ch: seq<nat>)
    requires Held(f, own) && Among(f, own, m, who) && |f'| == |f| && HeapOK(f') && ClosedIn(m, f')
    requires forall c :: 2 <= c < |f| && c !in m ==> f'[c] == f[c]
    requires who == {o} && (ch != [] ==> IsChain(f', ch) && (o.OfFile? ==> Unlinked(f', ch[0])))
    requires forall c :: c in ch ==> c in m
    ensures Held(f', own[o := ch])
  {
    var own' := own[o := ch];
    forall p | p in own && p != o
      ensures (forall c :: c in own[p] ==> c !in m)
      ensures own[p] != [] ==> IsChain(f', own[p]) && (p.OfFile? ==> Unlinked(f', own[p][0]))
    {
      Untouched(f, own, m, who, p);
      if own[p] != [] { ChainStays(f, f', m, own[p]); }
    }
    hide HeapOK, IsChain, Unlinked, ClosedIn;
    forall p, q | p in own' && q in own' && p != q ensures NoneShared(own'[p], own'[q]) {
      if p != o && q != o { assert NoneShared(own[p], own[q]); }
    }
  }

  /** The file's chain has been released. */
  lemma HeldFreed(f: seq<nat>, own: map<Owner, seq<nat>>, f': seq<nat>, o: Owner)
    requires Held(f, own) && o in own && o.OfFile? && HeapOK(f') && FreedChain(f, f', own[o])
    ensures Held(f', own[o := []])
  {
    HeldAt(f, own, o);
    var m := ToSet(own[o]);
    assert Among(f, own, m, {o}) && ClosedIn(m, f');
    hide HeapOK, IsChain, Unlinked;
    HeldAfter(f, own, f', m, {o}, o, []);
  }

  /** A new owner without clusters. */
  lemma HeldMore(f: seq<nat>, own: map<Owner, seq<nat>>, o: Owner)
    requires Held(f, own) && o !in own
    ensures Held(f, own[o := []])
  {
    var own' := own[o := []];
    hide HeapOK, IsChain, Unlinked;
    forall p, q | p in own' && q in own' && p != q ensures NoneShared(own'[p], own'[q]) {
      if p != o && q != o { assert NoneShared(own[p], own[q]); }
    }
  }

  /** One owner less. */
  lemma HeldLess(f: seq<nat>, own: map<Owner, seq<nat>>, o: Owner)
    requires Held(f, own)
    ensures Held(f, own - {o})
  {
    hide HeapOK, IsChain, Unlinked;
  }

  // ---------- A volume ----------

  /** The FAT, the sectors, who holds which chain, and the slots of the directories. */
  datatype Vol = Vol(fat: seq<nat>, snap: Snapshot, own: map<Owner, seq<nat>>, tabs: seq<seq<Slot>>)

  predicate Regular(e: Slot) { Live(e) && !Folder(e) }

  /** Directory number `k` is in order, and the journal covers its sectors. */
  ghost predicate TableAt(g: Geometry, f: seq<nat>, b: Snapshot, start: nat, ch: seq<nat>, slots: seq<Slot>) {
    && |b.view| == |b.media| == g.nsect && TableOK(g, f, start, ch) && Clusters(g, ch)
    && SectorsIn(b.view, TableSecs(g, ch))
    && slots == Slots(b.view, TableSecs(g, ch)) && DirOK(slots) && forall x :: x in Reach(g, ch) ==> x !in b.direct
  }

  lemma TableAtIs(g: Geometry, f: seq<nat>, b: Snapshot, start: nat, ch: seq<nat>, slots: seq<Slot>)
    requires TableAt(g, f, b, start, ch, slots)
    ensures |b.view| == |b.media| == g.nsect && TableOK(g, f, start, ch) && Clusters(g, ch)
    ensures SectorsIn(b.view, TableSecs(g, ch))
    ensures slots == Slots(b.view, TableSecs(g, ch)) && DirOK(slots) && forall x :: x in Reach(g, ch) ==> x !in b.direct
    ensures g.Valid() && DataFits(g) && |f| == g.nFatent && g.csize >= 1 && |slots| == 16 * |TableSecs(g, ch)|
  {
    TableFacts(g, f, start, ch);
    hide IsChain, HeapOK, Slots, TableSecs, Reach;
  }

  lemma TableAtIntro(g: Geometry, f: seq<nat>, b: Snapshot, start: nat, ch: seq<nat>, slots: seq<Slot>)
    requires |b.view| == |b.media| == g.nsect && TableOK(g, f, start, ch) && Clusters(g, ch)
    requires SectorsIn(b.view, TableSecs(g, ch))
    requires slots == Slots(b.view, TableSecs(g, ch)) && DirOK(slots)
    requires forall x :: x in Reach(g, ch) ==> x !in b.direct
    ensures TableAt(g, f, b, start, ch, slots)
  {
  }

  /** One sector of a table after a step elsewhere. */
  lemma TableSectorStays(g: Geometry, f: seq<nat>, a: Snapshot, start: nat, ch: seq<nat>, m: set<nat>, d: set<nat>,
                         f': seq<nat>, b: Snapshot, q: nat)
    requires TableOK(g, f, start, ch) && Clusters(g, ch) && q < |TableSecs(g, ch)| && |a.view| == g.nsect
    requires Within(g, m, d, f, a, f', b) && (forall c :: c in ch ==> c !in m)
    ensures TableSecs(g, ch)[q] < |a.view| == |b.view|
    ensures TableSecs(g, ch)[q] !in d ==> b.view[TableSecs(g, ch)[q]] == a.view[TableSecs(g, ch)[q]]
    ensures TableSecs(g, ch)[q] in b.direct ==> TableSecs(g, ch)[q] in a.direct
  {
    TableSector(g, f, start, ch, q);
    TableOutside(g, m, f, start, ch, q);
  }

  lemma ReachIndex(g: Geometry, ch: seq<nat>, x: nat) returns (q: nat)
    requires Clusters(g, ch) && x in Reach(g, ch)
    ensures q < |TableSecs(g, ch)| && TableSecs(g, ch)[q] == x
  {
    q :| q < |TableSecs(g, ch)| && TableSecs(g, ch)[q] == x;
  }

  /** The table of a directory that a step has nothing to do with. */
  lemma TableStays(g: Geometry, f: seq<nat>, a: Snapshot, start: nat, ch: seq<nat>, slots: seq<Slot>, m: set<nat>,
                   d: set<nat>, f': seq<nat>, b: Snapshot)
    requires TableAt(g, f, a, start, ch, slots) && Within(g, m, d, f, a, f', b) && HeapOK(f')
    requires (forall c :: c in ch ==> c !in m) && Clusters(g, ch) && forall x :: x in Reach(g, ch) ==> x !in d
    ensures TableAt(g, f', b, start, ch, slots)
  {
    hide *;
    TableAtIs(g, f, a, start, ch, slots);
    TableSurvives(g, m, d, f, a, f', b, start, ch);
    WithinIs(g, m, d, f, a, f', b);
    var secs := TableSecs(g, ch);
    forall q | 0 <= q < |secs| ensures secs[q] < |a.view| && b.view[secs[q]] == a.view[secs[q]] {
      TableSectorStays(g, f, a, start, ch, m, d, f', b, q);
      ReachAt(g, ch, q);
    }
    SameSlots(a.view, b.view, secs);
    forall x | x in Reach(g, ch) ensures x !in b.direct {
      var q := ReachIndex(g, ch, x);
      TableSectorStays(g, f, a, start, ch, m, d, f', b, q);
    }
    TableAtIntro(g, f', b, start, ch, slots);
  }

  lemma WithinIs(g: Geometry, m: set<nat>, d: set<nat>, f: seq<nat>, a: Snapshot, f': seq<nat>, b: Snapshot)
    requires Within(g, m, d, f, a, f', b)
    ensures |f'| == |f| && |b.view| == |a.view| && |b.media| == |a.media|
    ensures forall c :: 2 <= c < |f| && c !in m ==> f'[c] == f[c]
    ensures forall x: nat :: g.database <= x < |a.media| && x != a.winsect && Outside(g, m, x) && x !in d ==>
              b.media[x] == a.media[x]
    ensures || b.winsect == a.winsect || g.InFat1(b.winsect) || b.winsect == ALL_ONES || b.winsect in d
            || g.IsFsInfo(b.winsect)
  {
  }

  /** The table whose slot `i` the step has brought up to date. */
  lemma TableUpdated(g: Geometry, f: seq<nat>, a: Snapshot, start: nat, ch: seq<nat>, slots: seq<Slot>, m: set<nat>,
                     f': seq<nat>, b: Snapshot, i: nat, e: Slot)
    requires TableAt(g, f, a, start, ch, slots) && Clusters(g, ch) && i / 16 < |TableSecs(g, ch)| && i < |slots|
    requires HeapOK(f')
    requires Within(g, m, {TableSecs(g, ch)[i / 16]}, f, a, f', b) && (forall c :: c in ch ==> c !in m)
    requires DirOK(slots[i := e])
    requires var x := TableSecs(g, ch)[i / 16];
             x < |a.view| == |b.view| && b.view[x] == Splice(a.view[x], 32 * (i % 16), e)
    ensures TableAt(g, f', b, start, ch, slots[i := e])
  {
    hide *;
    TableAtIs(g, f, a, start, ch, slots);
    var secs, x := TableSecs(g, ch), TableSecs(g, ch)[i / 16];
    TableSurvives(g, m, {x}, f, a, f', b, start, ch);
    WithinIs(g, m, {x}, f, a, f', b);
    SlotStored(g, f, start, ch, a.view, i, e);
    var v1 := Apply(a.view, Patch(x, 32 * (i % 16), e));
    PatchedView(a.view, x, 32 * (i % 16), e);
    forall q | 0 <= q < |secs| ensures secs[q] < |v1| && b.view[secs[q]] == v1[secs[q]] {
      TableSectorStays(g, f, a, start, ch, m, {x}, f', b, q);
    }
    SameSlots(v1, b.view, secs);
    forall y | y in Reach(g, ch) ensures y !in b.direct {
      var q := ReachIndex(g, ch, y);
      TableSectorStays(g, f, a, start, ch, m, {x}, f', b, q);
    }
    TableAtIntro(g, f', b, start, ch, slots[i := e]);
  }

  lemma PatchedView(v: seq<Sector>, x: nat, off: nat, e: Slot)
    requires x < |v| && off + 32 <= 512
    ensures |Apply(v, Patch(x, off, e))| == |v| && Apply(v, Patch(x, off, e))[x] == Splice(v[x], off, e)
    ensures forall y :: 0 <= y < |v| && y != x ==> Apply(v, Patch(x, off, e))[y] == v[y]
  {
  }

  // ---------- The window ----------

  /** A cluster that is free or a file's. */
  ghost predicate FileOrFree(f: seq<nat>, own: map<Owner, seq<nat>>, c: nat)
    requires c < |f|
  {
    f[c] == 0 || exists o :: o in own && o.OfFile? && c in own[o]
  }

  /** The window is on no sector of such a cluster. */
  ghost predicate WindowClear(g: Geometry, f: seq<nat>, own: map<Owner, seq<nat>>, winsect: nat) {
    forall c :: 2 <= c < |f| && FileOrFree(f, own, c) ==> !InCluster(g, c, winsect)
  }

  /** What directories and files hold after the step comes from what was theirs, or was free, before it. */
  ghost predicate Passed(f: seq<nat>, own: map<Owner, seq<nat>>, m: set<nat>, own': map<Owner, seq<nat>>) {
    && (forall k, c :: OfDir(k) in own && c in own[OfDir(k)] ==> OfDir(k) in own' && c in own'[OfDir(k)])
    && (forall p, c :: p in own' && p.OfFile? && c in own'[p] ==> c in m || (p in own && c in own[p]))
  }

  lemma NotADir(f': seq<nat>, own': map<Owner, seq<nat>>, c: nat, k: nat)
    requires Held(f', own') && c < |f'| && FileOrFree(f', own', c) && OfDir(k) in own'
    ensures c !in own'[OfDir(k)]
  {
    HeldAt(f', own', OfDir(k));
    hide HeapOK, IsChain, Unlinked;
    if f'[c] != 0 {
      var o :| o in own' && o.OfFile? && c in own'[o];
      assert NoneShared(own'[OfDir(k)], own'[o]);
    }
  }

  lemma BeforeToo(f: seq<nat>, own: map<Owner, seq<nat>>, f': seq<nat>, own': map<Owner, seq<nat>>, m: set<nat>,
                  who: set<Owner>, c: nat)
    requires Held(f', own') && |f'| == |f| && Among(f, own, m, who) && Passed(f, own, m, own') && 2 <= c < |f|
    requires (forall x :: 2 <= x < |f| && x !in m ==> f'[x] == f[x]) && FileOrFree(f', own', c)
    ensures FileOrFree(f, own, c)
  {
    hide Held, HeapOK;
    if f[c] != 0 {
      if c in m {
        var o :| o in who && o in own && c in own[o];
        if o.OfDir? { NotADir(f', own', c, o.dir); }
      } else {
        assert f'[c] == f[c];
        var p :| p in own' && p.OfFile? && c in own'[p];
        assert p in own && c in own[p];
      }
    }
  }

  lemma WindowAfter(g: Geometry, f: seq<nat>, own: map<Owner, seq<nat>>, a: Snapshot, m: set<nat>, who: set<Owner>,
                    d: set<nat>, f': seq<nat>, own': map<Owner, seq<nat>>, b: Snapshot, start: nat, k: nat)
    requires WindowClear(g, f, own, a.winsect) && Held(f', own') && Among(f, own, m, who) && Passed(f, own, m, own')
    requires Within(g, m, d, f, a, f', b) && OfDir(k) in own' && TableOK(g, f', start, own'[OfDir(k)])
    requires Clusters(g, own'[OfDir(k)])
    requires d <= Reach(g, own'[OfDir(k)])
    ensures WindowClear(g, f', own', b.winsect)
  {
    hide *;
    WithinIs(g, m, d, f, a, f', b);
    TableRange(g, f', start, own'[OfDir(k)]);
    forall c | 2 <= c < |f'| && FileOrFree(f', own', c) ensures !InCluster(g, c, b.winsect) {
      BeforeToo(f, own, f', own', m, who, c);
      NotADir(f', own', c, k);
      ClearAt(g, f, own, a.winsect, c);
      if b.winsect in Reach(g, own'[OfDir(k)]) { TableApart(g, f', start, own'[OfDir(k)], c, b.winsect); }
      ClusterRange(g, c, b.winsect);
    }
    ClearIntro(g, f', own', b.winsect);
  }

  lemma TableRange(g: Geometry, f: seq<nat>, start: nat, ch: seq<nat>)
    requires TableOK(g, f, start, ch)
    ensures DataFits(g) && |f| == g.nFatent
  {
  }

  lemma ClearAt(g: Geometry, f: seq<nat>, own: map<Owner, seq<nat>>, winsect: nat, c: nat)
    requires WindowClear(g, f, own, winsect) && 2 <= c < |f| && FileOrFree(f, own, c)
    ensures !InCluster(g, c, winsect)
  {
  }

  lemma ClearIntro(g: Geometry, f: seq<nat>, own: map<Owner, seq<nat>>, winsect: nat)
    requires forall c :: 2 <= c < |f| && FileOrFree(f, own, c) ==> !InCluster(g, c, winsect)
    ensures WindowClear(g, f, own, winsect)
  {
  }

  lemma ClearApart(g: Geometry, own: map<Owner, seq<nat>>, o: Owner, s: FState)
    requires WindowClear(g, s.fat, own, s.winsect) && o in own && o.OfFile? && own[o] == s.chain
    ensures WindowApart(g, s)
  {
    hide InCluster;
  }

  // ---------- What a closed file holds ----------

  ghost function Dormant(g: Geometry, media: seq<Sector>, ch: seq<nat>, size: nat): seq<byte> {
    if Clusters(g, ch) && SectorsIn(media, Secs(g, ch)) && size <= 512 * |Secs(g, ch)| then
        Content(media, Secs(g, ch))[..size] else []
  }

  /** A step elsewhere does not touch the bytes of a closed file. */
  lemma DormantStays(g: Geometry, f: seq<nat>, own: map<Owner, seq<nat>>, a: Snapshot, m: set<nat>, d: set<nat>,
                     f': seq<nat>, b: Snapshot, o: Owner, size: nat)
    requires DataFits(g) && |f| == g.nFatent && |a.media| == g.nsect && Held(f, own)
    requires WindowClear(g, f, own, a.winsect) && o in own && o.OfFile?
    requires Within(g, m, d, f, a, f', b) && (forall c :: c in own[o] ==> c !in m)
    requires forall x :: x in d ==> !InChain(g, own[o], x)
    ensures Dormant(g, b.media, own[o], size) == Dormant(g, a.media, own[o], size)
  {
    HeldAt(f, own, o);
    var ch := own[o];
    WithinIs(g, m, d, f, a, f', b);
    hide Held, HeapOK, Within, WindowClear, InCluster, InChain, Outside, Secs, Content;
    if Clusters(g, ch) {
      forall q | 0 <= q < |Secs(g, ch)|
        ensures Secs(g, ch)[q] < |a.media| && b.media[Secs(g, ch)[q]] == a.media[Secs(g, ch)[q]]
      {
        SectorStays(g, f, own, a, m, d, f', b, o, q);
      }
      if SectorsIn(a.media, Secs(g, ch)) { SameContent(a.media, b.media, Secs(g, ch)); }
    }
  }

  lemma SectorStays(g: Geometry, f: seq<nat>, own: map<Owner, seq<nat>>, a: Snapshot, m: set<nat>, d: set<nat>,
                    f': seq<nat>, b: Snapshot, o: Owner, q: nat)
    requires DataFits(g) && |f| == g.nFatent && |a.media| == g.nsect && WindowClear(g, f, own, a.winsect) && o in own
    requires o.OfFile?
    requires Clusters(g, own[o]) && q < |Secs(g, own[o])|
    requires Within(g, m, d, f, a, f', b) && (forall c :: c in own[o] ==> c !in m)
    requires forall x :: x in d ==> !InChain(g, own[o], x)
    ensures Secs(g, own[o])[q] < |a.media| == |b.media| && b.media[Secs(g, own[o])[q]] == a.media[Secs(g, own[o])[q]]
  {
    var ch := own[o];
    var x := Secs(g, ch)[q];
    SecsInCluster(g, ch, q);
    var c := ch[Home(g, q)];
    assert c in ch;
    InChainOf(g, ch, q);
    OutsideOf(g, m, ch, x);
    assert FileOrFree(f, own, c);
    ClearAt(g, f, own, a.winsect, c);
    hide WindowClear, InChain, Outside, Secs;
    WithinIs(g, m, d, f, a, f', b);
  }
}
