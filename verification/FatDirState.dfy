/** A directory as the slots in its sectors, and as the map from names to entries that they mean. */
module FatDirState {
  import opened Bytes
  import opened FatEntry
  import opened FatVolume
  import opened FatHeap
  import opened FatChain
  import opened FatData
  import opened FatFileState
  import opened FatApart

  // ---------- Slots ----------

  /** A 32-byte directory entry. */
  type Slot = s: seq<byte> | |s| == 32 witness seq(32, _ => 0)

  /** A slot that may be reused: deleted, or never used. */
  predicate Free(e: Slot) { e[0] == 0xE5 || e[0] == 0 }

  /** A slot that holds a file or a directory; volume labels and long names carry attribute 8. */
  predicate Live(e: Slot) { !Free(e) && e[11] / 8 % 2 == 0 }

  function Name(e: Slot): (n: seq<byte>)
    ensures |n| == 11
  {
    e[..11]
  }

  /** A name that can be stored: neither of the two marks. */
  predicate Storable(name: seq<byte>) { |name| == 11 && name[0] != 0xE5 && name[0] != 0 }

  /** The entry that registering a name writes. */
  function NewEntry(name: seq<byte>): (e: Slot)
    requires |name| == 11
    ensures Name(e) == name && e[11] == 0
  {
    name + seq(21, _ => 0)
  }

  /** The entry that removing writes. */
  function Deleted(): (e: Slot)
    ensures e[0] == 0xE5
  {
    [0xE5] + seq(31, _ => 0)
  }

  lemma NewEntryBytes(name: seq<byte>)
    requires |name| == 11
    ensures NewEntry(name)[..11] == name && forall k :: 11 <= k < 32 ==> NewEntry(name)[k] == 0
  {
  }

  lemma DeletedBytes()
    ensures Deleted()[0] == 0xE5 && forall k :: 1 <= k < 32 ==> Deleted()[k] == 0
  {
  }

  function Blank(): (e: Slot)
    ensures e[0] == 0
  {
    seq(32, _ => 0)
  }

  // ---------- The map ----------

  ghost function Bindings(slots: seq<Slot>): map<seq<byte>, Slot> {
    if slots == [] then map[]
    else
      var e, rest := slots[|slots| - 1], Bindings(slots[..|slots| - 1]);
      if Live(e) then rest[Name(e) := e] else rest
  }

  /** No two live entries have the same name. */
  ghost predicate Unique(slots: seq<Slot>) {
    forall i, j :: 0 <= i < j < |slots| && Live(slots[i]) && Live(slots[j]) ==> Name(slots[i]) != Name(slots[j])
  }

  /** Every live entry precedes the first slot that was never used. */
  ghost predicate EndsAtZero(slots: seq<Slot>) {
    forall i, j :: 0 <= i < j < |slots| && slots[i][0] == 0 ==> !Live(slots[j])
  }

  /** The index of a slot has 16 bits. */
  ghost predicate InReach(slots: seq<Slot>) {
    forall i :: 0x1_0000 <= i < |slots| ==> !Live(slots[i])
  }

  ghost predicate DirOK(slots: seq<Slot>) { Unique(slots) && EndsAtZero(slots) && InReach(slots) }

  /** The map binds the names of live entries, and only those. */
  lemma {:induction false} BindingsIs(slots: seq<Slot>)
    requires Unique(slots)
    ensures forall i :: 0 <= i < |slots| && Live(slots[i]) ==>
              Name(slots[i]) in Bindings(slots) && Bindings(slots)[Name(slots[i])] == slots[i]
    ensures forall n :: n in Bindings(slots) ==> exists i :: 0 <= i < |slots| && Live(slots[i]) && Name(slots[i]) == n
  {
    if slots != [] {
      var k := |slots| - 1;
      BindingsIs(slots[..k]);
      forall n | n in Bindings(slots) ensures exists i :: 0 <= i < |slots| && Live(slots[i]) && Name(slots[i]) == n {
        if n in Bindings(slots[..k]) {
          var i :| 0 <= i < k && Live(slots[..k][i]) && Name(slots[..k][i]) == n;
          assert slots[i] == slots[..k][i];
        } else {
          assert Live(slots[k]) && Name(slots[k]) == n;
        }
      }
    }
  }

  /** A name is bound exactly if some live entry has it. */
  lemma Bound(slots: seq<Slot>, name: seq<byte>, i: nat)
    requires Unique(slots) && i < |slots| && Live(slots[i]) && Name(slots[i]) == name
    ensures name in Bindings(slots) && Bindings(slots)[name] == slots[i]
  {
    BindingsIs(slots);
  }

  /** The early stop of a search is complete: nothing with that name before the first zero entry
      means nothing with that name. */
  lemma NotBound(slots: seq<Slot>, name: seq<byte>, k: nat)
    requires DirOK(slots) && k <= |slots| && (k < |slots| && k < 0x1_0000 ==> slots[k][0] == 0)
    requires forall i :: 0 <= i < k && Live(slots[i]) ==> Name(slots[i]) != name
    ensures name !in Bindings(slots)
  {
    BindingsIs(slots);
    forall i | k <= i < |slots| ensures !Live(slots[i]) { assert k < 0x1_0000 ==> slots[k][0] == 0; }
  }

  lemma SameMap(a: map<seq<byte>, Slot>, b: map<seq<byte>, Slot>)
    requires (forall n :: n in a ==> n in b && a[n] == b[n]) && forall n :: n in b ==> n in a
    ensures a == b
  {
    assert a.Keys == b.Keys;
  }

  /** Two lists of slots that bind the same. */
  lemma SameBindings(slots: seq<Slot>, m: map<seq<byte>, Slot>)
    requires Unique(slots)
    requires forall i :: 0 <= i < |slots| && Live(slots[i]) ==> Name(slots[i]) in m && m[Name(slots[i])] == slots[i]
    requires forall n :: n in m ==> exists i :: 0 <= i < |slots| && Live(slots[i]) && Name(slots[i]) == n
    ensures Bindings(slots) == m
  {
    BindingsIs(slots);
    hide Live, Name, Unique, Bindings;
    forall n | n in Bindings(slots) ensures n in m && Bindings(slots)[n] == m[n] {
      var i :| 0 <= i < |slots| && Live(slots[i]) && Name(slots[i]) == n;
    }
    forall n | n in m ensures n in Bindings(slots) {
      var i :| 0 <= i < |slots| && Live(slots[i]) && Name(slots[i]) == n;
    }
    SameMap(Bindings(slots), m);
  }

  /** Registering in the first free slot adds one binding. */
  lemma Registered(slots: seq<Slot>, k: nat, name: seq<byte>)
    requires DirOK(slots) && Storable(name) && name !in Bindings(slots)
    requires k < |slots| && k < 0x1_0000 && Free(slots[k]) && forall i :: 0 <= i < k ==> !Free(slots[i])
    ensures DirOK(slots[k := NewEntry(name)])
    ensures Bindings(slots[k := NewEntry(name)]) == Bindings(slots)[name := NewEntry(name)]
  {
    var e, slots' := NewEntry(name), slots[k := NewEntry(name)];
    BindingsIs(slots);
    assert e[0] == name[0];
    assert Unique(slots');
    var m := Bindings(slots)[name := e];
    forall n | n in m ensures exists i :: 0 <= i < |slots'| && Live(slots'[i]) && Name(slots'[i]) == n {
      if n == name {
        assert Live(slots'[k]) && Name(slots'[k]) == n;
      } else {
        var i :| 0 <= i < |slots| && Live(slots[i]) && Name(slots[i]) == n;
        assert slots'[i] == slots[i];
      }
    }
    SameBindings(slots', m);
  }

  /** Removing takes one binding away. */
  lemma Deregistered(slots: seq<Slot>, k: nat)
    requires DirOK(slots) && k < |slots| && Live(slots[k])
    ensures DirOK(slots[k := Deleted()])
    ensures Bindings(slots[k := Deleted()]) == Bindings(slots) - {Name(slots[k])}
  {
    var slots', name := slots[k := Deleted()], Name(slots[k]);
    BindingsIs(slots);
    assert Unique(slots');
    var m := Bindings(slots) - {name};
    forall n | n in m ensures exists i :: 0 <= i < |slots'| && Live(slots'[i]) && Name(slots'[i]) == n {
      var i :| 0 <= i < |slots| && Live(slots[i]) && Name(slots[i]) == n;
      assert slots'[i] == slots[i];
    }
    SameBindings(slots', m);
  }

  /** Stretching with blank slots changes nothing. */
  lemma {:induction false} Lengthened(slots: seq<Slot>, n: nat)
    requires DirOK(slots)
    ensures DirOK(slots + seq(n, _ => Blank())) && Bindings(slots + seq(n, _ => Blank())) == Bindings(slots)
  {
    var longer := slots + seq(n, _ => Blank());
    assert forall i :: |slots| <= i < |longer| ==> longer[i] == Blank();
    if n == 0 {
      assert longer == slots;
    } else {
      Lengthened(slots, n - 1);
      assert longer[..|longer| - 1] == slots + seq(n - 1, _ => Blank());
    }
  }

  // ---------- Sectors ----------

  /** The fixed root directory of FAT12 and FAT16 lies between the FATs and the data area. */
  ghost predicate RootFits(g: Geometry) {
    && g.fsType != FAT32 && 0 < g.nRootdir && g.nRootdir % 16 == 0
    && g.fatbase + g.nFats * g.fsize <= g.dirbase && g.dirbase + g.nRootdir / 16 <= g.database
  }

  ghost function RootSecs(g: Geometry): (r: seq<nat>)
    ensures |r| == g.nRootdir / 16 && forall q :: 0 <= q < |r| ==> r[q] == g.dirbase + q
  {
    var f: nat -> nat := q => g.dirbase + q;
    seq(g.nRootdir / 16, f)
  }

  /** The cluster that the table starts in; 0 for the fixed root directory. */
  function StartOf(g: Geometry, sclust: nat): nat { if sclust == 0 && g.fsType == FAT32 then g.dirbase else sclust }

  /** `chain` is the chain of the directory that starts at `sclust`; none for the fixed root. */
  ghost predicate TableOK(g: Geometry, fat: seq<nat>, sclust: nat, chain: seq<nat>) {
    && DataFits(g) && |fat| == g.nFatent && HeapOK(fat) && Clusters(g, chain)
    && if StartOf(g, sclust) == 0 then chain == [] && RootFits(g)
       else IsChain(fat, chain) && chain[0] == StartOf(g, sclust)
  }

  /** The sectors of the table. */
  ghost function TableSecs(g: Geometry, chain: seq<nat>): (secs: seq<nat>)
    requires Clusters(g, chain)
  {
    if chain == [] then RootSecs(g) else Secs(g, chain)
  }

  lemma TableFacts(g: Geometry, fat: seq<nat>, sclust: nat, chain: seq<nat>)
    requires TableOK(g, fat, sclust, chain)
    ensures g.Valid() && g.csize >= 1 && Clusters(g, chain) && |fat| == g.nFatent
    ensures chain == [] <==> StartOf(g, sclust) == 0
    ensures |TableSecs(g, chain)| == if chain == [] then g.nRootdir / 16 else Times(|chain|, g.csize)
    ensures |TableSecs(g, chain)| > 0
  {
    if chain != [] { TimesLe(1, |chain|, g.csize); }
  }

  /** None of them is part of a FAT or the FSINFO sector. */
  lemma TableSector(g: Geometry, fat: seq<nat>, sclust: nat, chain: seq<nat>, q: nat)
    requires TableOK(g, fat, sclust, chain) && q < |TableSecs(g, chain)|
    ensures g.Valid() && TableSecs(g, chain)[q] < g.nsect
    ensures !g.InFat1(TableSecs(g, chain)[q]) && !g.InFat2(TableSecs(g, chain)[q])
    ensures !g.IsFsInfo(TableSecs(g, chain)[q])
  {
    if chain != [] { SecsInCluster(g, chain, q); }
  }

  lemma TableDistinct(g: Geometry, fat: seq<nat>, sclust: nat, chain: seq<nat>, p: nat, q: nat)
    requires TableOK(g, fat, sclust, chain) && p < |TableSecs(g, chain)| && q < |TableSecs(g, chain)| && p != q
    ensures TableSecs(g, chain)[p] != TableSecs(g, chain)[q]
  {
    if chain != [] {
      ChainDistinct(fat, chain);
      if p < q { SecsDistinct(g, chain, p, q); } else { SecsDistinct(g, chain, q, p); }
    }
  }

  // ---------- Slots in sectors ----------

  ghost function SlotAt(v: seq<Sector>, secs: seq<nat>, i: nat): (e: Slot)
    requires i / 16 < |secs| && secs[i / 16] < |v|
  {
    v[secs[i / 16]][32 * (i % 16)..32 * (i % 16) + 32]
  }

  ghost function Slots(v: seq<Sector>, secs: seq<nat>): (r: seq<Slot>)
    requires SectorsIn(v, secs)
    ensures |r| == 16 * |secs| && forall i :: 0 <= i < |r| ==> r[i] == SlotAt(v, secs, i)
  {
    seq(16 * |secs|, i requires 0 <= i < 16 * |secs| => SlotAt(v, secs, i))
  }

  /** A table is the contents of its sectors, read as a file is, cut into entries of 32 bytes. */
  lemma SlotsInOrder(v: seq<Sector>, secs: seq<nat>, i: nat)
    requires SectorsIn(v, secs) && i < 16 * |secs|
    ensures 32 * i + 32 <= |Content(v, secs)| && Slots(v, secs)[i] == Content(v, secs)[32 * i..32 * i + 32]
  {
    SliceOfFile(v, secs, i / 16, 32 * (i % 16), 32 * (i % 16) + 32);
    assert 512 * (i / 16) + 32 * (i % 16) == 32 * i;
  }

  lemma TableSectorsIn(g: Geometry, fat: seq<nat>, sclust: nat, chain: seq<nat>, v: seq<Sector>)
    requires TableOK(g, fat, sclust, chain) && |v| == g.nsect
    ensures SectorsIn(v, TableSecs(g, chain))
  {
    var secs := TableSecs(g, chain);
    forall q | 0 <= q < |secs| ensures secs[q] < |v| { TableSector(g, fat, sclust, chain, q); }
  }

  /** The sectors of the table are the same in both views. */
  lemma SameSlots(v: seq<Sector>, v': seq<Sector>, secs: seq<nat>)
    requires SectorsIn(v, secs) && |v'| == |v| && forall q :: 0 <= q < |secs| ==> v'[secs[q]] == v[secs[q]]
    ensures SectorsIn(v', secs) && Slots(v', secs) == Slots(v, secs)
  {
  }

  /** Steps that change nothing but FAT entries, copies and FSINFO leave a directory alone. */
  lemma TableKept(g: Geometry, fat: seq<nat>, sclust: nat, chain: seq<nat>, v: seq<Sector>, v': seq<Sector>)
    requires TableOK(g, fat, sclust, chain) && |v| == |v'| == g.nsect
    requires forall s: nat :: s < |v| && !g.InFat1(s) && !g.InFat2(s) && !g.IsFsInfo(s) ==> v'[s] == v[s]
    ensures SectorsIn(v, TableSecs(g, chain)) && SectorsIn(v', TableSecs(g, chain))
    ensures Slots(v', TableSecs(g, chain)) == Slots(v, TableSecs(g, chain))
  {
    var secs := TableSecs(g, chain);
    TableSectorsIn(g, fat, sclust, chain, v);
    forall q | 0 <= q < |secs| ensures v'[secs[q]] == v[secs[q]] { TableSector(g, fat, sclust, chain, q); }
    hide *;
    SameSlots(v, v', secs);
  }

  /** Writing 32 bytes at the place of slot `i` replaces that slot. */
  lemma SlotStored(g: Geometry, fat: seq<nat>, sclust: nat, chain: seq<nat>, v: seq<Sector>, i: nat, e: Slot)
    requires TableOK(g, fat, sclust, chain) && |v| == g.nsect && i / 16 < |TableSecs(g, chain)|
    ensures var secs := TableSecs(g, chain);
            var v' := Apply(v, Patch(secs[i / 16], 32 * (i % 16), e));
            && SectorsIn(v, secs) && SectorsIn(v', secs) && i < |Slots(v, secs)|
            && Slots(v', secs) == Slots(v, secs)[i := e]
  {
    var secs := TableSecs(g, chain);
    var v' := Apply(v, Patch(secs[i / 16], 32 * (i % 16), e));
    TableSectorsIn(g, fat, sclust, chain, v);
    hide *;
    SlotCount(v, secs);
    forall k: nat | k < 16 * |secs| ensures Slots(v', secs)[k] == Slots(v, secs)[i := e][k] {
      if k / 16 != i / 16 { TableDistinct(g, fat, sclust, chain, k / 16, i / 16); }
      OneSlot(v, secs, i, e, k);
    }
  }

  lemma SlotCount(v: seq<Sector>, secs: seq<nat>)
    requires SectorsIn(v, secs)
    ensures forall k: nat :: k < 16 * |secs| <==> k / 16 < |secs|
  {
  }

  lemma OneSlot(v: seq<Sector>, secs: seq<nat>, i: nat, e: Slot, k: nat)
    requires SectorsIn(v, secs) && i / 16 < |secs| && k / 16 < |secs|
    requires k / 16 != i / 16 ==> secs[k / 16] != secs[i / 16]
    ensures var v' := Apply(v, Patch(secs[i / 16], 32 * (i % 16), e));
            SectorsIn(v', secs) && SlotAt(v', secs, k) == if k == i then e else SlotAt(v, secs, k)
  {
    var v' := Apply(v, Patch(secs[i / 16], 32 * (i % 16), e));
    var a, b := SlotAt(v', secs, k), if k == i then e else SlotAt(v, secs, k);
    forall x | 0 <= x < 32 ensures a[x] == b[x] {
      assert a[x] == v'[secs[k / 16]][32 * (k % 16) + x];
    }
  }

  // ---------- Positions ----------

  /** Sector, cluster and offset in the sector of slot `i`. */
  ghost predicate PlaceOf(g: Geometry, chain: seq<nat>, i: nat, sect: nat, clust: nat, off: nat)
    requires g.csize >= 1 && Clusters(g, chain)
  {
    && i / 16 < |TableSecs(g, chain)| && sect == TableSecs(g, chain)[i / 16] && off == 32 * (i % 16)
    && if chain == [] then clust == 0 else Home(g, i / 16) < |chain| && clust == chain[Home(g, i / 16)]
  }

  /** A slot has one place only, however it was reached. */
  lemma PlaceUnique(g: Geometry, chain: seq<nat>, i: nat, s1: nat, c1: nat, o1: nat, s2: nat, c2: nat, o2: nat)
    requires g.csize >= 1 && Clusters(g, chain) && PlaceOf(g, chain, i, s1, c1, o1) && PlaceOf(g, chain, i, s2, c2, o2)
    ensures s1 == s2 && c1 == c2 && o1 == o2
  {
  }

  lemma RootPlace(g: Geometry, i: nat)
    requires g.csize >= 1 && RootFits(g)
    ensures Clusters(g, []) && |TableSecs(g, [])| == g.nRootdir / 16
    ensures i < g.nRootdir <==> i / 16 < |TableSecs(g, [])|
    ensures i < g.nRootdir ==> PlaceOf(g, [], i, g.dirbase + i / 16, 0, 32 * (i % 16))
  {
  }

  /** The walk along the chain is at cluster number `j`, with `rest` slots still to go. */
  ghost predicate WalkedTo(g: Geometry, chain: seq<nat>, i: nat, j: nat, clst: nat, rest: nat) {
    j < |chain| && clst == chain[j] && rest + 16 * Times(j, g.csize) == i
  }

  /** A whole cluster of slots further. */
  lemma WalkOn(g: Geometry, fat: seq<nat>, sclust: nat, chain: seq<nat>, i: nat, j: nat, clst: nat, rest: nat)
    requires TableOK(g, fat, sclust, chain) && chain != [] && WalkedTo(g, chain, i, j, clst, rest)
    requires rest >= 16 * g.csize
    ensures 2 <= clst < |fat|
    ensures 2 <= fat[clst] < |fat| ==> j + 1 < |chain| && WalkedTo(g, chain, i, j + 1, fat[clst], rest - 16 * g.csize)
    ensures !(2 <= fat[clst] < |fat|) ==> i / 16 >= |TableSecs(g, chain)|
    ensures i / 16 < |TableSecs(g, chain)| ==> 2 <= fat[clst] < |fat|
  {
    assert Times(j + 1, g.csize) == Times(j, g.csize) + g.csize;
    if j + 1 < |chain| { assert fat[chain[j]] == chain[j + 1]; } else { assert fat[chain[j]] >= |fat|; }
  }

  lemma WalkDone(g: Geometry, fat: seq<nat>, sclust: nat, chain: seq<nat>, i: nat, j: nat, clst: nat, rest: nat)
    requires TableOK(g, fat, sclust, chain) && chain != [] && WalkedTo(g, chain, i, j, clst, rest)
    requires rest < 16 * g.csize
    ensures g.nFatent >= 2 && g.csize >= 1 && Clusters(g, chain) && Clust2Sect(g, clst) != 0
    ensures PlaceOf(g, chain, i, Clust2Sect(g, clst) + rest / 16, clst, 32 * (rest % 16))
  {
    assert i / 16 == Times(j, g.csize) + rest / 16 && i % 16 == rest % 16;
    DivModIs(i / 16, g.csize, j, rest / 16);
    SecsAt(g, chain, j, rest / 16);
    Clust2SectIs(g, clst);
  }

  /** The next slot in the same sector. */
  lemma NextInSector(g: Geometry, chain: seq<nat>, i: nat, sect: nat, clust: nat, off: nat)
    requires g.csize >= 1 && Clusters(g, chain) && PlaceOf(g, chain, i, sect, clust, off) && (i + 1) % 16 != 0
    ensures PlaceOf(g, chain, i + 1, sect, clust, 32 * ((i + 1) % 16))
  {
    assert (i + 1) / 16 == i / 16;
  }

  /** The next sector of the fixed root directory. */
  lemma NextInRoot(g: Geometry, i: nat, sect: nat, clust: nat, off: nat)
    requires g.csize >= 1 && RootFits(g) && Clusters(g, []) && PlaceOf(g, [], i, sect, clust, off) && (i + 1) % 16 == 0
    ensures clust == 0
    ensures i + 1 < g.nRootdir <==> (i + 1) / 16 < |TableSecs(g, [])|
    ensures i + 1 < g.nRootdir ==> PlaceOf(g, [], i + 1, sect + 1, clust, 0)
  {
  }

  /** The next sector of the same cluster. */
  lemma NextInCluster(g: Geometry, chain: seq<nat>, i: nat, sect: nat, clust: nat, off: nat)
    requires g.csize >= 1 && Clusters(g, chain) && chain != [] && PlaceOf(g, chain, i, sect, clust, off)
    requires (i + 1) % 16 == 0 && (i + 1) / 16 % g.csize != 0
    ensures PlaceOf(g, chain, i + 1, sect + 1, clust, 0)
  {
    var q := i / 16;
    assert (i + 1) / 16 == q + 1;
    DivMod(q + 1, g.csize);
    DivModIs(q, g.csize, (q + 1) / g.csize, (q + 1) % g.csize - 1);
    SecsSplit(g, chain, q);
    SecsAt(g, chain, Home(g, q), (q + 1) % g.csize);
  }

  /** Behind the last slot of a cluster: the next cluster, or the end of the table. */
  lemma DirNextCluster(g: Geometry, fat: seq<nat>, sclust: nat, chain: seq<nat>, i: nat, sect: nat, clust: nat,
                       off: nat)
    requires TableOK(g, fat, sclust, chain) && g.csize >= 1 && Clusters(g, chain) && chain != []
    requires PlaceOf(g, chain, i, sect, clust, off)
    requires (i + 1) % 16 == 0 && (i + 1) / 16 % g.csize == 0
    ensures 2 <= clust < |fat| && fat[clust] >= 2 && g.nFatent >= 2
    ensures fat[clust] < |fat| <==> (i + 1) / 16 < |TableSecs(g, chain)|
    ensures fat[clust] < |fat| ==> PlaceOf(g, chain, i + 1, Clust2Sect(g, fat[clust]), fat[clust], 0)
    ensures fat[clust] >= |fat| ==> clust == chain[|chain| - 1] && i + 1 == 16 * |TableSecs(g, chain)|
  {
    var q := (i + 1) / 16;
    var j := Home(g, q);
    assert i / 16 == q - 1;
    DivMod(q, g.csize);
    assert j >= 1;
    assert Times(j, g.csize) == Times(j - 1, g.csize) + g.csize;
    DivModIs(q - 1, g.csize, j - 1, g.csize - 1);
    if j < |chain| {
      assert fat[chain[j - 1]] == chain[j];
      SecsAt(g, chain, j, 0);
      Clust2SectIs(g, chain[j]);
    }
  }

  lemma StartOfIs(g: Geometry, sclust: nat)
    ensures StartOf(g, sclust) == if sclust == 0 && g.fsType == FAT32 then g.dirbase else sclust
  {
  }

  lemma StartInRange(g: Geometry, fat: seq<nat>, sclust: nat, chain: seq<nat>)
    requires TableOK(g, fat, sclust, chain)
    ensures sclust != 1 && sclust < g.nFatent
  {
  }

  lemma RootOK(g: Geometry, fat: seq<nat>, sclust: nat, chain: seq<nat>)
    requires TableOK(g, fat, sclust, chain)
    ensures StartOf(g, sclust) == 0 ==> RootFits(g) && chain == []
  {
  }

  lemma WalkFrom(g: Geometry, fat: seq<nat>, sclust: nat, chain: seq<nat>, i: nat)
    requires TableOK(g, fat, sclust, chain) && chain != []
    ensures WalkedTo(g, chain, i, 0, StartOf(g, sclust), i)
  {
  }

  lemma PlaceInside(g: Geometry, chain: seq<nat>, i: nat, sect: nat, clust: nat, off: nat)
    requires g.csize >= 1 && Clusters(g, chain) && PlaceOf(g, chain, i, sect, clust, off)
    ensures i < 16 * |TableSecs(g, chain)|
  {
  }

  lemma SectPositive(g: Geometry, fat: seq<nat>, sclust: nat, chain: seq<nat>, q: nat)
    requires TableOK(g, fat, sclust, chain) && q < |TableSecs(g, chain)|
    ensures TableSecs(g, chain)[q] > 0
  {
    if chain != [] { SecsInCluster(g, chain, q); }
  }

  lemma ClustOf(g: Geometry, fat: seq<nat>, sclust: nat, chain: seq<nat>, i: nat, sect: nat, clust: nat, off: nat)
    requires TableOK(g, fat, sclust, chain) && g.csize >= 1 && PlaceOf(g, chain, i, sect, clust, off)
    ensures clust == 0 <==> chain == []
    ensures chain == [] <==> StartOf(g, sclust) == 0
  {
  }

  // ---------- Searching ----------

  lemma SameIs(g: Geometry, v: seq<Sector>, v': seq<Sector>)
    requires SameSectors(g, v, v')
    ensures |v'| == |v| && forall s: nat :: s < |v| && !g.InFat1(s) && !g.InFat2(s) && !g.IsFsInfo(s) ==> v'[s] == v[s]
  {
  }

  lemma SlotAtIs(v: seq<Sector>, secs: seq<nat>, i: nat)
    requires SectorsIn(v, secs) && i / 16 < |secs|
    ensures secs[i / 16] < |v| && i < |Slots(v, secs)|
    ensures Slots(v, secs)[i] == v[secs[i / 16]][32 * (i % 16)..32 * (i % 16) + 32]
  {
  }

  /** Neither the name nor the end of the table before slot `k`. */
  ghost predicate NotBefore(slots: seq<Slot>, name: seq<byte>, k: nat) {
    k <= |slots| && forall i :: 0 <= i < k && Live(slots[i]) ==> Name(slots[i]) != name
  }

  lemma NothingBefore(slots: seq<Slot>, name: seq<byte>)
    ensures NotBefore(slots, name, 0)
  {
  }

  lemma NotHere(slots: seq<Slot>, name: seq<byte>, k: nat)
    requires NotBefore(slots, name, k) && k < |slots| && !(slots[k][11] / 8 % 2 == 0 && slots[k][..11] == name)
    ensures NotBefore(slots, name, k + 1)
  {
  }

  lemma FoundHere(e: Slot, name: seq<byte>)
    requires Storable(name) && e[11] / 8 % 2 == 0 && e[..11] == name
    ensures Live(e) && Name(e) == name
  {
    assert e[0] == name[0];
  }

  lemma EndHere(slots: seq<Slot>, name: seq<byte>, k: nat)
    requires DirOK(slots) && NotBefore(slots, name, k)
    requires k == |slots| || k == 0x1_0000 || (k < |slots| && slots[k][0] == 0)
    ensures name !in Bindings(slots)
  {
    NotBound(slots, name, k);
  }

  lemma FoundBinding(slots: seq<Slot>, name: seq<byte>, k: nat)
    requires DirOK(slots) && k < |slots| && Live(slots[k]) && Name(slots[k]) == name
    ensures name in Bindings(slots) && Bindings(slots)[name] == slots[k]
  {
    Bound(slots, name, k);
  }

  // ---------- Stretching ----------

  function ClustSmall(g: Geometry, clst: nat): (c: nat)
    requires g.Valid() && clst < g.nFatent
    ensures c == clst <= ALL_ONES
  {
    clst
  }

  /** The first `c` sectors of the cluster are blank; outside FATs and FSINFO the rest is as before. */
  ghost predicate Zeroed(g: Geometry, v: seq<Sector>, v': seq<Sector>, clst: nat, c: nat)
    requires clst >= 2
  {
    && |v'| == |v| && Sec(g, clst) + c <= |v|
    && forall s: nat :: s < |v| && !g.InFat2(s) && !g.IsFsInfo(s) ==>
         v'[s] == if Sec(g, clst) <= s < Sec(g, clst) + c then Zeros() else v[s]
  }

  lemma ZeroedStart(g: Geometry, v: seq<Sector>, v': seq<Sector>, clst: nat)
    requires clst >= 2 && SameSectors(g, v, v') && Sec(g, clst) <= |v|
    ensures Zeroed(g, v, v', clst, 0)
  {
  }

  lemma ZeroedStep(g: Geometry, v0: seq<Sector>, v: seq<Sector>, v1: seq<Sector>, v2: seq<Sector>, clst: nat, c: nat)
    requires clst >= 2 && Zeroed(g, v0, v, clst, c) && Sec(g, clst) + c < |v|
    requires SameSectors(g, v[Sec(g, clst) + c := Zeros()], v1) && SameSectors(g, v1, v2)
    ensures Zeroed(g, v0, v2, clst, c + 1)
  {
    hide Zeros;
  }

  lemma ZeroedSame(g: Geometry, v0: seq<Sector>, v: seq<Sector>, v': seq<Sector>, clst: nat)
    requires clst >= 2 && Zeroed(g, v0, v, clst, g.csize) && SameSectors(g, v, v')
    ensures Zeroed(g, v0, v', clst, g.csize)
  {
    hide Zeros;
  }

  lemma ZeroedFirst(g: Geometry, v0: seq<Sector>, v: seq<Sector>, clst: nat)
    requires clst >= 2 && g.Valid() && Zeroed(g, v0, v, clst, g.csize) && g.database <= Sec(g, clst)
    ensures g.csize >= 1 && Sec(g, clst) < |v| && !g.InFat2(Sec(g, clst)) && v[Sec(g, clst)] == Zeros()
  {
    hide Zeros;
  }

  /** One more cluster at the end of the chain. */
  lemma StretchedTable(g: Geometry, fat: seq<nat>, sclust: nat, chain: seq<nat>, ncl: nat, mark: nat)
    requires TableOK(g, fat, sclust, chain) && chain != [] && 2 <= ncl < |fat| && fat[ncl] == 0 && mark >= |fat|
    ensures chain[|chain| - 1] < |fat|
    ensures TableOK(g, Stretched(fat, chain[|chain| - 1], ncl, mark), sclust, chain + [ncl])
    ensures Clusters(g, chain) && Clusters(g, chain + [ncl]) && ncl !in chain
    ensures TableSecs(g, chain + [ncl]) == TableSecs(g, chain) + ClusterSecs(g, ncl)
  {
    ChainUsed(fat, chain);
    StretchKeeps(fat, chain[|chain| - 1], ncl, mark);
    StretchExtends(fat, chain, ncl, mark);
    SecsExtend(g, chain, ncl);
  }

  /** The slots of a stretched table: the old ones, then blank ones. */
  lemma StretchedSlots(g: Geometry, fat: seq<nat>, sclust: nat, chain: seq<nat>, ncl: nat, mark: nat, v: seq<Sector>,
                       v1: seq<Sector>, v2: seq<Sector>)
    requires TableOK(g, fat, sclust, chain) && chain != [] && 2 <= ncl < |fat| && fat[ncl] == 0 && mark >= |fat|
    requires |v| == |v1| == g.nsect && Zeroed(g, v1, v2, ncl, g.csize)
    requires forall s: nat :: s < |v| && !g.InFat1(s) && !g.InFat2(s) && !g.IsFsInfo(s) ==> v1[s] == v[s]
    ensures Clusters(g, chain) && Clusters(g, chain + [ncl]) && |v2| == g.nsect
    ensures SectorsIn(v, TableSecs(g, chain)) && SectorsIn(v2, TableSecs(g, chain + [ncl]))
    ensures Slots(v2, TableSecs(g, chain + [ncl])) == Slots(v, TableSecs(g, chain)) + seq(16 * g.csize, _ => Blank())
  {
    StretchedTable(g, fat, sclust, chain, ncl, mark);
    TableSectorsIn(g, fat, sclust, chain, v);
    ClusterFits(g, ncl);
    var secs, more := TableSecs(g, chain), ClusterSecs(g, ncl);
    forall q | 0 <= q < |secs|
      ensures secs[q] < |v| && v2[secs[q]] == v[secs[q]]
    {
      OldSector(g, fat, sclust, chain, ncl, mark, v, v1, v2, q);
    }
    forall q | 0 <= q < |more| ensures more[q] < |v2| && v2[more[q]] == Zeros() { NewSector(g, v1, v2, ncl, q); }
    hide *;
    MoreSlots(v, v2, secs, more);
  }

  lemma OldSector(g: Geometry, fat: seq<nat>, sclust: nat, chain: seq<nat>, ncl: nat, mark: nat, v: seq<Sector>,
                  v1: seq<Sector>, v2: seq<Sector>, q: nat)
    requires TableOK(g, fat, sclust, chain) && chain != [] && 2 <= ncl < |fat| && ncl !in chain
    requires q < |TableSecs(g, chain)|
    requires |v| == |v1| == g.nsect && Zeroed(g, v1, v2, ncl, g.csize)
    requires forall s: nat :: s < |v| && !g.InFat1(s) && !g.InFat2(s) && !g.IsFsInfo(s) ==> v1[s] == v[s]
    ensures TableSecs(g, chain)[q] < |v| && v2[TableSecs(g, chain)[q]] == v[TableSecs(g, chain)[q]]
  {
    TableSector(g, fat, sclust, chain, q);
    SecsInCluster(g, chain, q);
    ClustersApart(g, chain[Home(g, q)], ncl, TableSecs(g, chain)[q]);
    hide Zeros;
  }

  lemma NewSector(g: Geometry, v1: seq<Sector>, v2: seq<Sector>, ncl: nat, q: nat)
    requires DataFits(g) && 2 <= ncl < g.nFatent && |v1| == g.nsect && Zeroed(g, v1, v2, ncl, g.csize) && q < g.csize
    ensures ClusterSecs(g, ncl)[q] < |v2| && v2[ClusterSecs(g, ncl)[q]] == Zeros()
  {
    ClusterFits(g, ncl);
    hide Zeros;
  }

  lemma MoreSlots(v: seq<Sector>, v2: seq<Sector>, secs: seq<nat>, more: seq<nat>)
    requires SectorsIn(v, secs) && |v2| == |v|
    requires forall q :: 0 <= q < |secs| ==> secs[q] < |v| && v2[secs[q]] == v[secs[q]]
    requires forall q :: 0 <= q < |more| ==> more[q] < |v2| && v2[more[q]] == Zeros()
    ensures SectorsIn(v2, secs + more) && Slots(v2, secs + more) == Slots(v, secs) + seq(16 * |more|, _ => Blank())
  {
    var a, b := Slots(v2, secs + more), Slots(v, secs) + seq(16 * |more|, _ => Blank());
    forall k | 0 <= k < |a| ensures a[k] == b[k] {
      if k >= 16 * |secs| { ZeroSlot(k % 16); }
    }
  }

  lemma ZeroSlot(r: nat)
    requires r < 16
    ensures Zeros()[32 * r..32 * r + 32] == Blank()
  {
  }

  /** The first slot of the new cluster. */
  lemma NewPlace(g: Geometry, fat: seq<nat>, sclust: nat, chain: seq<nat>, ncl: nat, i: nat)
    requires DataFits(g) && Clusters(g, chain) && chain != [] && Clusters(g, chain + [ncl]) && 2 <= ncl < g.nFatent
    requires i == 16 * |TableSecs(g, chain)|
    ensures g.csize >= 1 && g.nFatent >= 2 && Clust2Sect(g, ncl) != 0
    ensures PlaceOf(g, chain + [ncl], i, Clust2Sect(g, ncl), ncl, 0)
  {
    DivModIs(i / 16, g.csize, |chain|, 0);
    SecsAt(g, chain + [ncl], |chain|, 0);
    Clust2SectIs(g, ncl);
  }

  // ---------- Allocating ----------

  lemma DirLastCluster(g: Geometry, fat: seq<nat>, sclust: nat, chain: seq<nat>)
    requires TableOK(g, fat, sclust, chain) && chain != []
    ensures HeapOK(fat) && DataFits(g) && 2 <= chain[|chain| - 1] < |fat| && fat[chain[|chain| - 1]] >= |fat|
  {
  }

  lemma TableHeap(g: Geometry, fat: seq<nat>, sclust: nat, chain: seq<nat>)
    requires TableOK(g, fat, sclust, chain)
    ensures HeapOK(fat)
  {
  }

  lemma StepIs(g: Geometry, a: Snapshot, b: Snapshot)
    requires FatStep(g, a, b)
    ensures |b.view| == |a.view|
    ensures forall s: nat :: s < |a.view| && !g.InFat1(s) && !g.InFat2(s) && !g.IsFsInfo(s) ==> b.view[s] == a.view[s]
  {
  }

  /** The same slots, or, when slot `k` is the first one behind them, blank slots added. */
  ghost predicate Longer(slots: seq<Slot>, slots': seq<Slot>, k: nat) {
    slots' == slots || (k == |slots| && exists n: nat :: slots' == slots + Blanks(n))
  }

  ghost function Blanks(n: nat): (r: seq<Slot>)
    ensures |r| == n && forall i :: 0 <= i < n ==> r[i] == Blank()
  {
    seq(n, _ => Blank())
  }

  /** The same slots, perhaps followed by blank ones. */
  ghost predicate Extended(slots: seq<Slot>, slots': seq<Slot>) {
    slots <= slots' && forall i :: |slots| <= i < |slots'| ==> slots'[i] == Blank()
  }

  lemma ExtendedSame(slots: seq<Slot>)
    ensures Extended(slots, slots)
  {
  }

  lemma ExtendedTrans(slots: seq<Slot>, slots1: seq<Slot>, slots2: seq<Slot>)
    requires Extended(slots, slots1) && Extended(slots1, slots2)
    ensures Extended(slots, slots2)
  {
  }

  lemma ExtendedBy(slots: seq<Slot>, slots1: seq<Slot>, slots2: seq<Slot>, k: nat)
    requires Extended(slots, slots1) && Longer(slots1, slots2, k)
    ensures Extended(slots, slots2)
  {
    hide Blanks;
    if slots2 != slots1 { var n: nat :| slots2 == slots1 + Blanks(n); }
  }

  /** The entry is in a slot that was free or is new; the other slots are as they were, perhaps
      followed by blank ones. */
  ghost predicate Placed(slots: seq<Slot>, slots': seq<Slot>, k: nat, e: Slot) {
    && |slots| <= |slots'| && k < |slots'| && slots'[k] == e && (k < |slots| ==> Free(slots[k]))
    && forall i :: 0 <= i < |slots'| && i != k ==> slots'[i] == if i < |slots| then slots[i] else Blank()
  }

  lemma PlacedIntro(slots: seq<Slot>, slots1: seq<Slot>, k: nat, e: Slot)
    requires Extended(slots, slots1) && FirstFree(slots1, k)
    ensures Placed(slots, slots1[k := e], k, e)
  {
    hide Free;
  }

  lemma LongerSame(slots: seq<Slot>, k: nat)
    ensures Longer(slots, slots, k)
  {
  }

  lemma LongerBy(slots: seq<Slot>, n: nat)
    ensures Longer(slots, slots + seq(n, _ => Blank()), |slots|)
  {
    assert seq(n, _ => Blank()) == Blanks(n);
  }

  ghost predicate NoFreeBefore(slots: seq<Slot>, k: nat) {
    k <= |slots| && forall i :: 0 <= i < k ==> !Free(slots[i])
  }

  ghost predicate FirstFree(slots: seq<Slot>, k: nat) {
    NoFreeBefore(slots, k) && k < |slots| && Free(slots[k])
  }

  /** No slot within reach is free. */
  ghost predicate NoFreeSlot(slots: seq<Slot>) {
    forall i :: 0 <= i < |slots| && i < 0x1_0000 ==> !Free(slots[i])
  }

  /** The two marks: 0xE5 for a deleted entry, 0 for one that was never used. */
  ghost predicate Marked(e: Slot) { e[0] == 0xE5 || e[0] == 0 }

  lemma FirstMarked(slots: seq<Slot>, k: nat)
    ensures FirstFree(slots, k) <==> k < |slots| && Marked(slots[k]) && forall i :: 0 <= i < k ==> !Marked(slots[i])
    ensures NoFreeSlot(slots) <==> forall i :: 0 <= i < |slots| && i < 0x1_0000 ==> !Marked(slots[i])
  {
    forall e: Slot ensures Free(e) <==> Marked(e) {}
    hide Free, Marked;
  }

  lemma FreeNone(slots: seq<Slot>)
    ensures NoFreeBefore(slots, 0)
  {
  }

  lemma FreeHere(slots: seq<Slot>, k: nat)
    requires NoFreeBefore(slots, k) && k < |slots| && (slots[k][0] == 0xE5 || slots[k][0] == 0)
    ensures FirstFree(slots, k)
  {
  }

  lemma InUseHere(slots: seq<Slot>, k: nat)
    requires NoFreeBefore(slots, k) && k < |slots| && !(slots[k][0] == 0xE5 || slots[k][0] == 0)
    ensures NoFreeBefore(slots, k + 1)
  {
  }

  lemma AllInUse(slots: seq<Slot>, k: nat)
    requires NoFreeBefore(slots, k) && (k >= |slots| || k >= 0x1_0000)
    ensures NoFreeSlot(slots)
  {
  }

  lemma LongerOK(slots: seq<Slot>, slots': seq<Slot>, k: nat)
    requires DirOK(slots) && Longer(slots, slots', k) && NoFreeBefore(slots, k)
    ensures DirOK(slots') && Bindings(slots') == Bindings(slots) && NoFreeBefore(slots', k)
  {
    if slots' != slots {
      var n: nat :| slots' == slots + Blanks(n);
      assert Blanks(n) == seq(n, _ => Blank());
      Lengthened(slots, n);
    }
  }

  lemma RegisteredAt(slots: seq<Slot>, k: nat, name: seq<byte>)
    requires DirOK(slots) && Storable(name) && name !in Bindings(slots) && FirstFree(slots, k) && k < 0x1_0000
    ensures DirOK(slots[k := NewEntry(name)])
    ensures Bindings(slots[k := NewEntry(name)]) == Bindings(slots)[name := NewEntry(name)]
    ensures |name| == 11
  {
    Registered(slots, k, name);
  }

  /** The slot holds a file or directory of that name: the name is in bytes 0 to 10, and the attribute byte does not
      have the bit of volume labels. */
  ghost predicate Holds(e: Slot, name: seq<byte>) { e[..11] == name && e[11] / 8 % 2 == 0 }

  lemma HoldsIs(e: Slot, name: seq<byte>)
    requires Storable(name)
    ensures Holds(e, name) <==> Live(e) && Name(e) == name
  {
    assert e[0] == e[..11][0];
  }

  /** A name is bound exactly if some slot holds it. */
  lemma BoundIffHeld(slots: seq<Slot>, name: seq<byte>)
    requires DirOK(slots) && Storable(name)
    ensures name in Bindings(slots) <==> exists i :: 0 <= i < |slots| && Holds(slots[i], name)
  {
    BindingsIs(slots);
    hide DirOK, Bindings, Holds;
    if i :| 0 <= i < |slots| && Holds(slots[i], name) { HoldsIs(slots[i], name); }
    if name in Bindings(slots) {
      var i :| 0 <= i < |slots| && Live(slots[i]) && Name(slots[i]) == name;
      HoldsIs(slots[i], name);
    }
  }

  // ---------- Overwriting ----------

  /** `ld_clust`: the first cluster that an entry names. */
  function ClusterIn(g: Geometry, e: Slot): nat {
    LdWord(e[26], e[27]) + if g.fsType == FAT32 then 0x1_0000 * LdWord(e[20], e[21]) else 0
  }

  /** The low half of the number is at 26, the high half, on FAT32 only, at 20. */
  lemma ClusterInIs(g: Geometry, e: Slot)
    ensures ClusterIn(g, e) == e[26] as int + 0x100 * e[27] as int
                               + if g.fsType == FAT32 then 0x1_0000 * e[20] as int + 0x100_0000 * e[21] as int else 0
  {
  }

  /** The entry of a file about to be overwritten: creation time, no attributes, size 0, no cluster. */
  function Emptied(e: Slot, tm: nat): (r: Slot)
    requires tm < 0x1_0000_0000
  {
    hide StDword, StWord;
    var timed := Splice(Splice(e, 14, StDword(tm)), 11, [0]);
    Splice(Splice(Splice(timed, 28, StDword(0)), 26, StWord(0)), 20, StWord(0))
  }

  /** What overwriting a file makes of its entry: no attributes, size 0, no cluster, the creation time at 14; the rest
      stays. */
  ghost predicate Empties(e: Slot, r: Slot, tm: nat) {
    && r[..11] == e[..11] && r[11] == 0 && r[12] == e[12] && r[13] == e[13] && Le32(r, 14) == tm
    && r[18] == e[18] && r[19] == e[19] && r[20] == 0 && r[21] == 0 && r[22..26] == e[22..26] && r[26] == 0
    && r[27] == 0
    && Le32(r, 28) == 0
  }

  /** It still has its name, and names no cluster. */
  lemma EmptiedIs(g: Geometry, e: Slot, tm: nat)
    requires tm < 0x1_0000_0000
    ensures Name(Emptied(e, tm)) == Name(e) && ClusterIn(g, Emptied(e, tm)) == 0 && (Live(e) ==> Live(Emptied(e, tm)))
    ensures EntrySize(Emptied(e, tm)) == 0 && Emptied(e, tm)[11] == 0
  {
    ZeroWord();
    hide Splice, StDword, StWord, LdWord, LdDword;
    var r := Emptied(e, tm);
    assert r[..11] == e[..11] && r[0] == e[0] && r[11] == 0;
    assert r[26] == 0 && r[27] == 0 && r[20] == 0 && r[21] == 0;
    assert r[28] == 0 && r[29] == 0 && r[30] == 0 && r[31] == 0;
  }

  lemma EmptiesOf(e: Slot, r: Slot, tm: nat, d: seq<byte>, w: seq<byte>, n: seq<byte>)
    requires tm < 0x1_0000_0000 && d == StDword(tm) && w == [0, 0] && n == [0, 0, 0, 0]
    requires r == Splice(Splice(Splice(Splice(Splice(e, 14, d), 11, [0]), 28, n), 26, w), 20, w)
    ensures Empties(e, r, tm)
  {
    TimeBytes(tm);
    hide Splice, StDword;
    Le32Of(r, 14, d);
    Le32Of(r, 28, n);
  }

  lemma EmptiedBytes(e: Slot, tm: nat)
    requires tm < 0x1_0000_0000
    ensures Empties(e, Emptied(e, tm), tm)
  {
    ZeroWord();
    hide Splice, StDword, StWord, LdWord, LdDword, Empties;
    var timed := Splice(Splice(e, 14, StDword(tm)), 11, [0]);
    assert Emptied(e, tm) == Splice(Splice(Splice(timed, 28, StDword(0)), 26, StWord(0)), 20, StWord(0));
    hide Emptied;
    EmptiesOf(e, Emptied(e, tm), tm, StDword(tm), StWord(0), StDword(0));
  }

  /** Replacing a live entry by one with the same name changes that binding only. */
  lemma Rebound(slots: seq<Slot>, k: nat, e: Slot)
    requires DirOK(slots) && k < |slots| && Live(slots[k]) && Live(e) && Name(e) == Name(slots[k])
    ensures DirOK(slots[k := e]) && Bindings(slots[k := e]) == Bindings(slots)[Name(e) := e]
  {
    var slots' := slots[k := e];
    BindingsIs(slots);
    hide Name;
    assert Unique(slots') && EndsAtZero(slots');
    var m := Bindings(slots)[Name(e) := e];
    forall n | n in m ensures exists i :: 0 <= i < |slots'| && Live(slots'[i]) && Name(slots'[i]) == n {
      if n == Name(e) {
        assert Live(slots'[k]) && Name(slots'[k]) == n;
      } else {
        var i :| 0 <= i < |slots| && Live(slots[i]) && Name(slots[i]) == n;
        assert slots'[i] == slots[i];
      }
    }
    SameBindings(slots', m);
  }

  /** The entry has replaced the one in slot `k`, which had the same name; nothing else is different. */
  ghost predicate Rewritten(slots: seq<Slot>, slots': seq<Slot>, k: nat, e: Slot) {
    k < |slots| && slots' == slots[k := e] && Bindings(slots') == Bindings(slots)[Name(slots[k]) := e]
  }

  lemma RewrittenIntro(slots: seq<Slot>, k: nat, e: Slot)
    requires DirOK(slots) && k < |slots| && Live(slots[k]) && Live(e) && Name(e) == Name(slots[k])
    ensures DirOK(slots[k := e]) && Rewritten(slots, slots[k := e], k, e)
  {
    Rebound(slots, k, e);
  }

  /** The chain `ch` belongs to another file than this directory. */
  ghost predicate OtherChain(fat: seq<nat>, chain: seq<nat>, ch: seq<nat>, cl: nat) {
    Starts(fat, cl, ch) && NoneShared(chain, ch)
  }

  /** Exactly the clusters of `ch` have become free. */
  ghost predicate FreedChain(fat: seq<nat>, fat': seq<nat>, ch: seq<nat>) {
    && |fat'| == |fat| && forall c :: 0 <= c < |fat| ==> fat'[c] == if c in ch then 0 else fat[c]
  }

  /** Releasing it frees the whole chain and leaves the directory in one piece. */
  lemma FreedBeside(g: Geometry, fat: seq<nat>, sclust: nat, chain: seq<nat>, ch: seq<nat>, cl: nat, fat': seq<nat>,
                    free: nat, free': nat, res: FResult)
    requires TableOK(g, fat, sclust, chain) && cl != 0 && OtherChain(fat, chain, ch, cl) && free <= ALL_ONES
    requires |fat| < 0x1000_0000
    requires Removed(fat, fat', cl, free, free', res)
    ensures res == FR_OK && TableOK(g, fat', sclust, chain) && FreedChain(fat, fat', ch)
    ensures Exact(free, fat) ==> Exact(free', fat')
  {
    WalkChain(fat, ch);
    WalkFrees(fat, cl);
    BesideChain(g, fat, sclust, chain, ch, fat');
  }

  lemma BesideChain(g: Geometry, fat: seq<nat>, sclust: nat, chain: seq<nat>, ch: seq<nat>, fat': seq<nat>)
    requires TableOK(g, fat, sclust, chain) && HeapOK(fat') && FreedChain(fat, fat', ch)
    requires forall c :: c in ch ==> c !in chain
    ensures TableOK(g, fat', sclust, chain)
  {
    hide HeapOK;
    forall i | 0 <= i < |chain| ensures chain[i] !in ch { assert chain[i] in chain; }
  }

  lemma NothingFreed(fat: seq<nat>, chain: seq<nat>, ch: seq<nat>)
    requires OtherChain(fat, chain, ch, 0)
    ensures FreedChain(fat, fat, ch)
  {
  }

  lemma OtherHead(fat: seq<nat>, chain: seq<nat>, ch: seq<nat>, cl: nat)
    requires OtherChain(fat, chain, ch, cl) && cl != 0
    ensures Unlinked(fat, cl) && 2 <= cl < |fat|
  {
  }

  lemma ReleasingCuts(fsType: FsType, f: seq<nat>, cl: nat, cuts: seq<seq<nat>>, f': seq<nat>, cuts': seq<seq<nat>>,
                      res: FResult)
    requires HeapOK(f) && Unlinked(f, cl)
    requires res != FR_DISK_ERR || fsType != FAT12 ==> Releasing(fsType, f, cl, cuts, f', 0, cuts')
    ensures CutsHold(fsType, cuts) ==> CutsHold(fsType, cuts')
  {
  }

  // ---------- Opening ----------

  /** An entry that names a chain of its own, long enough for the size it states, opens as a sound
      file, with the window still on the directory that the entry was found in. */
  lemma OpenedOK(g: Geometry, fat: seq<nat>, media: seq<Sector>, winsect: nat, chain: seq<nat>, buf: seq<byte>,
                 sclust: nat, fsize: nat, dir: nat, dch: seq<nat>)
    requires DataFits(g) && |fat| == g.nFatent && |media| == g.nsect && |buf| == 512 && HeapOK(fat)
    requires Starts(fat, sclust, chain) && fsize <= 512 * Times(|chain|, g.csize)
    requires TableOK(g, fat, dir, dch) && winsect in Reach(g, dch) && NoneShared(dch, chain)
    ensures FileOK(g, Opened(fat, media, winsect, chain, buf, sclust, fsize))
    ensures Good(g, Opened(fat, media, winsect, chain, buf, sclust, fsize))
  {
    hide *;
    var s := Opened(fat, media, winsect, chain, buf, sclust, fsize);
    OpenedIs(fat, media, winsect, chain, buf, sclust, fsize);
    OpenedChain(g, s);
    OpenedWindow(g, fat, winsect, chain, dir, dch);
    OpenedCore(g, s);
  }

  lemma OpenedCore(g: Geometry, s: FState)
    requires ChainOK(g, s) && |s.buf| == 512 && s.dsect == s.fptr == 0 && !s.dirty
    requires Clusters(g, s.chain) && s.fsize <= 512 * |Secs(g, s.chain)|
    requires forall c :: 2 <= c < |s.fat| && (c in s.chain || s.fat[c] == 0) ==> !InCluster(g, c, s.winsect)
    ensures FileOK(g, s) && Good(g, s)
  {
    hide InCluster, HeapOK, IsChain, Unlinked, Secs;
  }

  lemma OpenedChain(g: Geometry, s: FState)
    requires DataFits(g) && |s.fat| == g.nFatent && |s.media| == g.nsect && HeapOK(s.fat)
    requires Starts(s.fat, s.sclust, s.chain)
    ensures ChainOK(g, s) && Clusters(g, s.chain) && |Secs(g, s.chain)| == Times(|s.chain|, g.csize)
  {
    assert Clusters(g, s.chain);
    hide HeapOK, Unlinked, Secs, InCluster;
    forall q | 0 <= q < |Secs(g, s.chain)|
      ensures g.database <= Secs(g, s.chain)[q] < g.nsect
    {
      SecsInCluster(g, s.chain, q);
    }
  }

  lemma OpenedWindow(g: Geometry, fat: seq<nat>, winsect: nat, chain: seq<nat>, dir: nat, dch: seq<nat>)
    requires TableOK(g, fat, dir, dch) && winsect in Reach(g, dch) && NoneShared(dch, chain)
    ensures forall c :: 2 <= c < |fat| && (c in chain || fat[c] == 0) ==> !InCluster(g, c, winsect)
  {
    TableClosed(g, fat, dir, dch);
    forall c | 2 <= c < |fat| && (c in chain || fat[c] == 0) ensures !InCluster(g, c, winsect) {
      TableApart(g, fat, dir, dch, c, winsect);
    }
  }

  // ---------- What an operation leaves alone ----------

  /** The sectors of the table. */
  ghost function Reach(g: Geometry, chain: seq<nat>): (d: set<nat>)
    requires Clusters(g, chain)
  {
    set x | x in TableSecs(g, chain)
  }

  /** The step changes entries and sectors of the directory's clusters and of free ones only, loses
      none of these clusters, and leaves the window on the table if it moves it; all stores go through
      the window. */
  ghost predicate DirStays(g: Geometry, f: seq<nat>, ch: seq<nat>, a: Snapshot, f': seq<nat>, ch': seq<nat>,
                           b: Snapshot) {
    && Clusters(g, ch) && Clusters(g, ch') && ch <= ch' && (ch == [] ==> ch' == [])
    && Within(g, Mine(f, ch), Reach(g, ch'), f, a, f', b) && Mine(f', ch') == Mine(f, ch)
    && b.direct <= a.direct && forall x :: x in Reach(g, ch') && x !in Reach(g, ch) ==> x !in b.direct
  }

  lemma ReachMore(g: Geometry, ch: seq<nat>, ch': seq<nat>)
    requires Clusters(g, ch) && Clusters(g, ch') && ch <= ch' && (ch == [] ==> ch' == [])
    ensures Reach(g, ch) <= Reach(g, ch')
  {
    if ch != [] {
      SecsPrefix(g, ch', |ch|);
      var secs, secs' := Secs(g, ch), Secs(g, ch');
      assert ch'[..|ch|] == ch;
      forall x | x in Reach(g, ch) ensures x in Reach(g, ch') {
        var q :| 0 <= q < |secs| && secs[q] == x;
        assert secs'[q] == x;
      }
    }
  }

  lemma DirTrans(g: Geometry, f: seq<nat>, ch: seq<nat>, a: Snapshot, f1: seq<nat>, ch1: seq<nat>, a1: Snapshot,
                 f2: seq<nat>, ch2: seq<nat>, b: Snapshot)
    requires g.Valid() && |a.media| == g.nsect
    requires DirStays(g, f, ch, a, f1, ch1, a1) && DirStays(g, f1, ch1, a1, f2, ch2, b)
    ensures DirStays(g, f, ch, a, f2, ch2, b)
  {
    hide Within, Mine, Reach;
    ReachMore(g, ch1, ch2);
    WithinMore(g, Mine(f, ch), Mine(f, ch), Reach(g, ch1), Reach(g, ch2), f, a, f1, a1);
    WithinTrans(g, Mine(f, ch), Reach(g, ch2), f, a, f1, a1, f2, b);
  }

  lemma DirSame(g: Geometry, f: seq<nat>, ch: seq<nat>, a: Snapshot)
    requires Clusters(g, ch)
    ensures DirStays(g, f, ch, a, f, ch, a)
  {
  }

  /** FAT entries are read. */
  lemma DirFat(g: Geometry, f: seq<nat>, ch: seq<nat>, a: Snapshot, b: Snapshot)
    requires Clusters(g, ch) && FatStep(g, a, b)
    ensures DirStays(g, f, ch, a, f, ch, b)
  {
  }

  /** The window moves to a sector of `d`, or bytes are stored there. */
  lemma WindowStep(g: Geometry, d: set<nat>, f: seq<nat>, a: Snapshot, v: seq<Sector>, b: Snapshot, sect: nat,
                   data: Sector)
    requires |b.view| == |a.view| && |b.media| == |a.media| && sect in d && sect < |a.view|
    requires (v == a.view || v == a.view[sect := data]) && SameSectors(g, v, b.view)
    requires forall x: nat :: g.database <= x < |a.media| && x != a.winsect && x !in d ==> b.media[x] == a.media[x]
    requires b.winsect == a.winsect || b.winsect == ALL_ONES || b.winsect in d
    requires b.direct <= a.direct
    ensures Within(g, {}, d, f, a, f, b)
  {
  }

  lemma DirWindow(g: Geometry, f: seq<nat>, ch: seq<nat>, a: Snapshot, b: Snapshot)
    requires Clusters(g, ch) && Within(g, {}, Reach(g, ch), f, a, f, b) && b.direct <= a.direct
    ensures DirStays(g, f, ch, a, f, ch, b)
  {
    WithinMore(g, {}, Mine(f, ch), Reach(g, ch), Reach(g, ch), f, a, f, b);
  }

  ghost function ToSet(ch: seq<nat>): set<nat> { set c | c in ch }

  lemma SetMore(m: set<nat>)
    ensures {} <= m
  {
  }

  lemma ReachIn(g: Geometry, chain: seq<nat>, x: nat)
    requires Clusters(g, chain) && x in TableSecs(g, chain)
    ensures x in Reach(g, chain)
  {
  }

  lemma FreedOnly(f: seq<nat>, f': seq<nat>, chain: seq<nat>, ch: seq<nat>)
    requires FreedChain(f, f', ch)
    ensures |f'| == |f| && forall c :: 2 <= c < |f| && c !in Mine(f, chain) + ToSet(ch) ==> f'[c] == f[c]
  {
  }

  lemma ReachOnly(g: Geometry, c: nat, x: nat)
    requires 2 <= c < g.nFatent && Clusters(g, [c]) && x in Reach(g, [c])
    ensures Sec(g, c) <= x < Sec(g, c) + g.csize
  {
    assert [c][..0] == [];
    assert Secs(g, [c]) == Secs(g, []) + ClusterSecs(g, c);
  }

  lemma OneCluster(g: Geometry, c: nat)
    requires 2 <= c < g.nFatent
    ensures Clusters(g, [c])
  {
  }

  lemma SectorStored(v: seq<Sector>, sect: nat, off: nat, e: seq<byte>)
    requires sect < |v| && off + |e| <= 512
    ensures Apply(v, Patch(sect, off, e)) == v[sect := Apply(v, Patch(sect, off, e))[sect]]
  {
  }

  lemma ReachAt(g: Geometry, chain: seq<nat>, q: nat)
    requires Clusters(g, chain) && q < |TableSecs(g, chain)|
    ensures TableSecs(g, chain)[q] in Reach(g, chain)
  {
  }

  lemma ReachCluster(g: Geometry, c: nat, k: nat)
    requires 2 <= c < g.nFatent && k < g.csize
    ensures Clusters(g, [c]) && Sec(g, c) + k in Reach(g, [c])
  {
    assert [c][..0] == [];
    assert Secs(g, [c]) == Secs(g, []) + ClusterSecs(g, c);
    assert ClusterSecs(g, c)[k] in TableSecs(g, [c]);
  }

  /** The chain gets a new last cluster, which is then blanked. */
  lemma DirGrows(g: Geometry, f: seq<nat>, ch: seq<nat>, a: Snapshot, ncl: nat, mark: nat, a1: Snapshot, b: Snapshot)
    requires g.Valid() && |a.media| == g.nsect && Clusters(g, ch) && ch != [] && ch[|ch| - 1] < |f| == g.nFatent
    requires 2 <= ncl < |f| && f[ncl] == 0 && mark >= |f|
    requires FatStep(g, a, a1) && Clusters(g, [ncl])
    requires Within(g, {}, Reach(g, [ncl]), Stretched(f, ch[|ch| - 1], ncl, mark), a1,
                    Stretched(f, ch[|ch| - 1], ncl, mark), b)
    requires b.direct <= a1.direct && forall x :: x in Reach(g, [ncl]) ==> x !in b.direct
    ensures DirStays(g, f, ch, a, Stretched(f, ch[|ch| - 1], ncl, mark), ch + [ncl], b)
  {
    var f', m, ch' := Stretched(f, ch[|ch| - 1], ncl, mark), Mine(f, ch), ch + [ncl];
    ReachGrows(g, ch, ncl);
    MineGrows(f, ch, ncl, mark);
    StepDirect(g, a, a1);
    hide Mine, Stretched, Secs, Within, FatStep, Geometry.Valid, Reach;
    FatWithin(g, m, Reach(g, ch'), f, f', a, a1);
    WithinMore(g, {}, m, Reach(g, [ncl]), Reach(g, ch'), f', a1, f', b);
    WithinTrans(g, m, Reach(g, ch'), f, a, f', a1, f', b);
  }

  lemma StepDirect(g: Geometry, a: Snapshot, b: Snapshot)
    requires FatStep(g, a, b)
    ensures b.direct == a.direct
  {
  }

  lemma ReachGrows(g: Geometry, ch: seq<nat>, ncl: nat)
    requires Clusters(g, ch) && ch != [] && Clusters(g, [ncl])
    ensures Clusters(g, ch + [ncl]) && Reach(g, ch + [ncl]) == Reach(g, ch) + Reach(g, [ncl])
  {
    assert [ncl][0] == ncl;
    SecsExtend(g, ch, ncl);
    SecsExtend(g, [], ncl);
    assert [] + [ncl] == [ncl];
  }

  lemma MineGrows(f: seq<nat>, ch: seq<nat>, ncl: nat, mark: nat)
    requires ch != [] && ch[|ch| - 1] < |f| && 2 <= ncl < |f| && f[ncl] == 0 && mark >= |f|
    ensures var f' := Stretched(f, ch[|ch| - 1], ncl, mark);
            Mine(f', ch + [ncl]) == Mine(f, ch) && forall c :: 2 <= c < |f| && c !in Mine(f, ch) ==> f'[c] == f[c]
  {
    var last, f' := ch[|ch| - 1], Stretched(f, ch[|ch| - 1], ncl, mark);
    assert last in ch && forall c :: 0 <= c < |f| && c != last && c != ncl ==> f'[c] == f[c];
    assert forall c :: c in ch + [ncl] <==> c in ch || c == ncl;
  }

  lemma FatWithin(g: Geometry, m: set<nat>, d: set<nat>, f: seq<nat>, f': seq<nat>, a: Snapshot, b: Snapshot)
    requires FatStep(g, a, b) && |f'| == |f| && forall c :: 2 <= c < |f| && c !in m ==> f'[c] == f[c]
    ensures Within(g, m, d, f, a, f', b)
  {
  }

  /** A step elsewhere leaves the table in one piece, and its slots but those in sectors of `d`. */
  lemma TableSurvives(g: Geometry, m: set<nat>, d: set<nat>, f: seq<nat>, a: Snapshot, f': seq<nat>, b: Snapshot,
                      sclust: nat, ch: seq<nat>)
    requires TableOK(g, f, sclust, ch) && Within(g, m, d, f, a, f', b) && HeapOK(f') && |a.view| == g.nsect
    requires forall c :: c in ch ==> c !in m
    ensures TableOK(g, f', sclust, ch) && Clusters(g, ch)
    ensures SectorsIn(a.view, TableSecs(g, ch)) && SectorsIn(b.view, TableSecs(g, ch))
    ensures var secs := TableSecs(g, ch);
            forall i :: 0 <= i < |Slots(a.view, secs)| && secs[i / 16] !in d ==>
                  Slots(b.view, secs)[i] == Slots(a.view, secs)[i]
  {
    TableSectorsIn(g, f, sclust, ch, a.view);
    var secs := TableSecs(g, ch);
    forall i | 0 <= i < |ch| ensures f'[ch[i]] == f[ch[i]] { assert ch[i] in ch; }
    forall q | 0 <= q < |secs| && secs[q] !in d ensures b.view[secs[q]] == a.view[secs[q]] {
      TableSector(g, f, sclust, ch, q);
      TableOutside(g, m, f, sclust, ch, q);
    }
  }

  lemma TableOutside(g: Geometry, m: set<nat>, f: seq<nat>, sclust: nat, ch: seq<nat>, q: nat)
    requires TableOK(g, f, sclust, ch) && q < |TableSecs(g, ch)| && forall c :: c in ch ==> c !in m
    ensures ch != [] ==> InChain(g, ch, TableSecs(g, ch)[q]) && Outside(g, m, TableSecs(g, ch)[q])
    ensures ch == [] ==> TableSecs(g, ch)[q] < g.database && Outside(g, m, TableSecs(g, ch)[q])
  {
    if ch != [] {
      InChainOf(g, ch, q);
      OutsideOf(g, m, ch, Secs(g, ch)[q]);
    }
  }

  lemma DirStaysIs(g: Geometry, f: seq<nat>, ch: seq<nat>, a: Snapshot, f': seq<nat>, ch': seq<nat>, b: Snapshot)
    requires DirStays(g, f, ch, a, f', ch', b)
    ensures Clusters(g, ch') && ch <= ch' && Within(g, Mine(f, ch), Reach(g, ch'), f, a, f', b)
    ensures Mine(f', ch') == Mine(f, ch)
    ensures |f'| == |f|
  {
  }

  lemma NotDirs(g: Geometry, t: FState, ch: seq<nat>)
    requires Core(g, t) && NoneShared(ch, t.chain)
    ensures forall c :: c in t.chain ==> c !in Mine(t.fat, ch)
  {
    if t.sclust != 0 { ChainUsed(t.fat, t.chain); }
  }

  lemma TableClosed(g: Geometry, f: seq<nat>, sclust: nat, ch: seq<nat>)
    requires TableOK(g, f, sclust, ch)
    ensures ClosedIn(Mine(f, ch), f) && forall c :: c in ch ==> c in Mine(f, ch) && f[c] != 0
  {
    if ch != [] { ChainUsed(f, ch); }
    forall c | c in Mine(f, ch) && c in ch ensures f[c] == 0 || f[c] in Mine(f, ch) || f[c] >= |f| {
      var i :| 0 <= i < |ch| && ch[i] == c;
      if i < |ch| - 1 { assert ch[i + 1] in ch; }
    }
  }

  lemma NotShared(ch: seq<nat>, tch: seq<nat>, m: set<nat>)
    requires (forall c :: c in ch ==> c in m) && (forall c :: c in tch ==> c !in m)
    ensures NoneShared(ch, tch)
  {
  }

  /** Sectors of the table are in no other cluster. */
  lemma TableApart(g: Geometry, f: seq<nat>, sclust: nat, ch: seq<nat>, c: nat, x: nat)
    requires TableOK(g, f, sclust, ch) && 2 <= c < g.nFatent && c !in ch && x in Reach(g, ch)
    ensures !InCluster(g, c, x)
  {
    var secs := TableSecs(g, ch);
    var q :| 0 <= q < |secs| && secs[q] == x;
    ClusterFits(g, c);
    if ch != [] {
      SecsInCluster(g, ch, q);
      assert ch[Home(g, q)] in ch;
      ClustersApart(g, ch[Home(g, q)], c, x);
    }
  }

  /** The window after an operation on the directory is still on no sector of the file, and of no free cluster. */
  lemma WindowOnTable(g: Geometry, ch: seq<nat>, a: Snapshot, b: Snapshot, t: FState, t': FState, sclust: nat,
                      ch': seq<nat>)
    requires Core(g, t) && WindowApart(g, t) && DataFits(g) && |t.fat| == g.nFatent && TableOK(g, t'.fat, sclust, ch')
    requires DirStays(g, t.fat, ch, a, t'.fat, ch', b) && t.winsect == a.winsect
    requires NoneShared(ch', t.chain) && t'.chain == t.chain && t'.winsect == b.winsect
    ensures WindowApart(g, t')
  {
    TableClosed(g, t'.fat, sclust, ch');
    hide HeapOK, IsChain, Core, InCluster, Reach, TableOK;
    forall c | 2 <= c < |t'.fat| && (c in t'.chain || t'.fat[c] == 0) ensures !InCluster(g, c, t'.winsect) {
      ClusterRange(g, c, t'.winsect);
      assert c !in ch';
      if b.winsect in Reach(g, ch') { TableApart(g, t'.fat, sclust, ch', c, b.winsect); }
      if c !in t.chain && t.fat[c] != 0 { assert c in Mine(t'.fat, ch') && c in ch; }
    }
  }

  lemma ClusterRange(g: Geometry, c: nat, x: nat)
    requires DataFits(g) && 2 <= c < g.nFatent
    ensures g.InFat1(x) || x == ALL_ONES || g.IsFsInfo(x) ==> !InCluster(g, c, x)
  {
    ClusterFits(g, c);
  }

  /** A file that shares no cluster with the directory is what it was after an operation on it. */
  lemma FileBesideDir(g: Geometry, sclust: nat, ch: seq<nat>, a: Snapshot, ch': seq<nat>, b: Snapshot, t: FState,
                      t': FState)
    requires FileOK(g, t) && Tidy(g, t) && t.media == a.media && t.winsect == a.winsect
    requires NoneShared(ch, t.chain) && TableOK(g, t'.fat, sclust, ch') && DirStays(g, t.fat, ch, a, t'.fat, ch', b)
    requires t' == t.(fat := t'.fat, media := b.media, winsect := b.winsect)
    ensures FileOK(g, t') && SameBytes(g, t, t') && NoneShared(ch', t.chain)
  {
    hide *;
    FileOKIs(g, t);
    CoreWindow(g, t);
    DirStaysIs(g, t.fat, ch, a, t'.fat, ch', b);
    NotDirs(g, t, ch);
    TableClosed(g, t'.fat, sclust, ch');
    TableHeap(g, t'.fat, sclust, ch');
    var m := Mine(t.fat, ch);
    NotShared(ch', t.chain, m);
    WindowOnTable(g, ch, a, b, t, t', sclust, ch');
    forall x | x in Reach(g, ch') ensures !InChain(g, t.chain, x) { TableNotInChain(g, t, t'.fat, sclust, ch', x); }
    FileSurvives(g, m, Reach(g, ch'), a, b, t, t');
  }

  lemma TableNotInChain(g: Geometry, t: FState, f: seq<nat>, sclust: nat, ch: seq<nat>, x: nat)
    requires Core(g, t) && TableOK(g, f, sclust, ch) && x in Reach(g, ch) && NoneShared(ch, t.chain)
    ensures !InChain(g, t.chain, x)
  {
    hide Reach, InCluster, HeapOK, IsChain;
    forall c | c in t.chain && c >= 2 ensures !InCluster(g, c, x) { TableApart(g, f, sclust, ch, c, x); }
  }

  /** A directory is what it was after a call on a file that shares no cluster with it, but for the
      sectors `d`, where the call brings the file's own entry up to date. */
  lemma DirBesideFile(g: Geometry, s: FState, a: Snapshot, s': FState, b: Snapshot, d: set<nat>, sclust: nat,
                      ch: seq<nat>)
    requires Core(g, s') && Local(g, s, a, s', b, d) && |a.view| == g.nsect
    requires TableOK(g, s.fat, sclust, ch) && NoneShared(s.chain, ch)
    ensures TableOK(g, s'.fat, sclust, ch) && Clusters(g, ch) && NoneShared(s'.chain, ch)
    ensures SectorsIn(a.view, TableSecs(g, ch)) && SectorsIn(b.view, TableSecs(g, ch))
    ensures var secs := TableSecs(g, ch);
            forall i :: 0 <= i < |Slots(a.view, secs)| && secs[i / 16] !in d ==>
                  Slots(b.view, secs)[i] == Slots(a.view, secs)[i]
  {
    hide *;
    LocalIs(g, s, a, s', b, d);
    CoreWindow(g, s');
    NotFiles(g, s, sclust, ch);
    DisjointAfter(g, s', s'.(chain := ch), Mine(s.fat, s.chain));
    DisjointIs(s', s'.(chain := ch));
    TableSurvives(g, Mine(s.fat, s.chain), d, s.fat, a, s'.fat, b, sclust, ch);
  }

  lemma NotFiles(g: Geometry, s: FState, sclust: nat, ch: seq<nat>)
    requires TableOK(g, s.fat, sclust, ch) && NoneShared(s.chain, ch)
    ensures forall c :: c in ch ==> c !in Mine(s.fat, s.chain)
  {
    if ch != [] { ChainUsed(s.fat, ch); }
  }

  /** A directory is what it was after an operation on another one. */
  lemma DirBesideDir(g: Geometry, f: seq<nat>, sclust: nat, ch: seq<nat>, a: Snapshot, f': seq<nat>, ch': seq<nat>,
                     b: Snapshot, other: nat, och: seq<nat>)
    requires DirStays(g, f, ch, a, f', ch', b) && TableOK(g, f', sclust, ch') && |a.view| == g.nsect
    requires TableOK(g, f, other, och) && NoneShared(ch, och) && (ch != [] || och != [])
    ensures TableOK(g, f', other, och) && Clusters(g, och) && NoneShared(ch', och)
    ensures SectorsIn(a.view, TableSecs(g, och)) && SectorsIn(b.view, TableSecs(g, och))
    ensures Slots(b.view, TableSecs(g, och)) == Slots(a.view, TableSecs(g, och))
  {
    hide *;
    DirStaysIs(g, f, ch, a, f', ch', b);
    TableHeap(g, f', sclust, ch');
    NotOtherDirs(g, f, other, och, ch);
    TableClosed(g, f', sclust, ch');
    NotShared(ch', och, Mine(f, ch));
    TableSurvives(g, Mine(f, ch), Reach(g, ch'), f, a, f', b, other, och);
    var secs := TableSecs(g, och);
    forall i: nat | i < |Slots(a.view, secs)|
      ensures i < |Slots(b.view, secs)| && Slots(b.view, secs)[i] == Slots(a.view, secs)[i]
    {
      SlotInside(a.view, b.view, secs, i);
      TablesApart(g, f, f', sclust, ch', other, och, i / 16);
    }
    SlotsCount(a.view, b.view, secs);
  }

  lemma SlotInside(v: seq<Sector>, v': seq<Sector>, secs: seq<nat>, i: nat)
    requires SectorsIn(v, secs) && SectorsIn(v', secs) && i < |Slots(v, secs)|
    ensures i / 16 < |secs| && i < |Slots(v', secs)|
  {
  }

  lemma SlotsCount(v: seq<Sector>, v': seq<Sector>, secs: seq<nat>)
    requires SectorsIn(v, secs) && SectorsIn(v', secs)
    ensures |Slots(v, secs)| == |Slots(v', secs)|
  {
  }

  lemma NotOtherDirs(g: Geometry, f: seq<nat>, other: nat, och: seq<nat>, ch: seq<nat>)
    requires TableOK(g, f, other, och) && NoneShared(ch, och)
    ensures forall c :: c in och ==> c !in Mine(f, ch)
  {
    if och != [] { ChainUsed(f, och); }
  }

  /** Two tables share no sector, unless both are the fixed root. */
  lemma TablesApart(g: Geometry, f: seq<nat>, f': seq<nat>, sclust: nat, ch: seq<nat>, other: nat, och: seq<nat>,
                    q: nat)
    requires TableOK(g, f', sclust, ch) && TableOK(g, f, other, och) && NoneShared(ch, och) && q < |TableSecs(g, och)|
    requires ch != [] || och != []
    ensures TableSecs(g, och)[q] !in Reach(g, ch)
  {
    var x := TableSecs(g, och)[q];
    if och != [] {
      SecsInCluster(g, och, q);
      assert och[Home(g, q)] in och;
      if x in Reach(g, ch) { TableApart(g, f', sclust, ch, och[Home(g, q)], x); }
    } else if x in Reach(g, ch) {
      var p :| 0 <= p < |Secs(g, ch)| && Secs(g, ch)[p] == x;
      SecsInCluster(g, ch, p);
    }
  }
}
