/** The sectors of a cluster chain and the bytes they hold. */
module FatData {
  import opened Bytes
  import opened Seqs
  import opened FatEntry
  import opened FatHeap

  /** `n * k`, by addition. */
  ghost function Times(n: nat, k: nat): (r: nat)
  {
    if n == 0 then 0 else Times(n - 1, k) + k
  }

  lemma {:induction false} TimesIs(n: nat, k: nat)
    ensures Times(n, k) == n * k
  {
    if n > 0 {
      TimesIs(n - 1, k);
      assert (n - 1) * k + k == n * k;
    }
  }

  lemma {:induction false} TimesLe(a: nat, b: nat, k: nat)
    requires a <= b
    ensures Times(a, k) <= Times(b, k)
  {
    if a < b { TimesLe(a, b - 1, k); }
  }

  lemma DivMod(q: nat, k: nat)
    requires k >= 1
    ensures q == Times(q / k, k) + q % k && q % k < k
  {
    TimesIs(q / k, k);
    assert q == k * (q / k) + q % k;
    assert k * (q / k) == q / k * k;
  }

  lemma DivModIs(q: nat, k: nat, j: nat, r: nat)
    requires r < k && q == Times(j, k) + r
    ensures q / k == j && q % k == r
  {
    TimesIs(j, k);
    assert k * j == j * k;
    Euclid(q, k, j, r);
  }

  /** The clusters fit on the drive. */
  ghost predicate DataFits(g: Geometry) {
    g.Valid() && g.database + Times(g.nFatent - 2, g.csize) <= g.nsect
  }

  /** First sector of cluster `c`. */
  ghost function Sec(g: Geometry, c: nat): (s: nat)
    requires c >= 2
  {
    Times(c - 2, g.csize) + g.database
  }

  /** Sector `s` belongs to cluster `c`. */
  ghost predicate InCluster(g: Geometry, c: nat, s: nat)
    requires c >= 2
  {
    Sec(g, c) <= s < Sec(g, c) + g.csize
  }

  lemma ClusterFits(g: Geometry, c: nat)
    requires DataFits(g) && 2 <= c < g.nFatent
    ensures g.database <= Sec(g, c) && Sec(g, c) + g.csize <= g.nsect
  {
    assert Times(c - 1, g.csize) == Times(c - 2, g.csize) + g.csize;
    TimesLe(c - 1, g.nFatent - 2, g.csize);
  }

  /** Clusters do not overlap. */
  lemma ClustersApart(g: Geometry, c: nat, d: nat, s: nat)
    requires 2 <= c && 2 <= d && c != d && InCluster(g, c, s)
    ensures !InCluster(g, d, s)
  {
    assert Times(c - 1, g.csize) == Times(c - 2, g.csize) + g.csize;
    assert Times(d - 1, g.csize) == Times(d - 2, g.csize) + g.csize;
    if c < d { TimesLe(c - 1, d - 2, g.csize); } else { TimesLe(d - 1, c - 2, g.csize); }
  }

  ghost predicate Clusters(g: Geometry, ch: seq<nat>) {
    forall i :: 0 <= i < |ch| ==> 2 <= ch[i] < g.nFatent
  }

  /** The sectors of a cluster. */
  ghost function ClusterSecs(g: Geometry, c: nat): (r: seq<nat>)
    requires c >= 2
    ensures |r| == g.csize && forall k :: 0 <= k < g.csize ==> r[k] == Sec(g, c) + k
  {
    var f: nat -> nat := k => Sec(g, c) + k;
    seq(g.csize, f)
  }

  /** The sectors of a chain, in file order. */
  ghost function Secs(g: Geometry, ch: seq<nat>): (r: seq<nat>)
    requires Clusters(g, ch)
    ensures |r| == Times(|ch|, g.csize)
  {
    if ch == [] then [] else Secs(g, ch[..|ch| - 1]) + ClusterSecs(g, ch[|ch| - 1])
  }

  /** Sector number `r` of cluster number `j` of the file. */
  lemma {:induction false} SecsAt(g: Geometry, ch: seq<nat>, j: nat, r: nat)
    requires Clusters(g, ch) && j < |ch| && r < g.csize
    ensures Times(j, g.csize) + r < |Secs(g, ch)| && Secs(g, ch)[Times(j, g.csize) + r] == Sec(g, ch[j]) + r
  {
    var k := |ch| - 1;
    if j < k {
      SecsAt(g, ch[..k], j, r);
    }
  }

  /** The cluster that holds sector `q` of the file. */
  ghost function Home(g: Geometry, q: nat): nat
    requires g.csize >= 1
  {
    q / g.csize
  }

  lemma SecsSplit(g: Geometry, ch: seq<nat>, q: nat)
    requires g.csize >= 1 && Clusters(g, ch) && q < |Secs(g, ch)|
    ensures Home(g, q) < |ch| && q == Times(Home(g, q), g.csize) + q % g.csize && q % g.csize < g.csize
    ensures Secs(g, ch)[q] == Sec(g, ch[Home(g, q)]) + q % g.csize
  {
    DivMod(q, g.csize);
    if Home(g, q) >= |ch| { TimesLe(|ch|, Home(g, q), g.csize); }
    SecsAt(g, ch, Home(g, q), q % g.csize);
  }

  lemma SecsInCluster(g: Geometry, ch: seq<nat>, q: nat)
    requires DataFits(g) && Clusters(g, ch) && q < |Secs(g, ch)|
    ensures Home(g, q) < |ch| && InCluster(g, ch[Home(g, q)], Secs(g, ch)[q])
    ensures g.database <= Secs(g, ch)[q] < g.nsect
  {
    SecsSplit(g, ch, q);
    hide *;
    ClusterFits(g, ch[Home(g, q)]);
    InClusterIs(g, ch[Home(g, q)], q % g.csize);
  }

  lemma InClusterIs(g: Geometry, c: nat, r: nat)
    requires c >= 2 && r < g.csize
    ensures InCluster(g, c, Sec(g, c) + r)
  {
  }

  /** Different sectors of a file are different sectors of the drive. */
  lemma SecsDistinct(g: Geometry, ch: seq<nat>, p: nat, q: nat)
    requires DataFits(g) && Clusters(g, ch) && Distinct(ch) && p < q < |Secs(g, ch)|
    ensures Secs(g, ch)[p] != Secs(g, ch)[q]
  {
    var i, j := Home(g, p), Home(g, q);
    SecsInCluster(g, ch, p);
    SecsInCluster(g, ch, q);
    DistinctAt(ch, i, j);
    SecsSplit(g, ch, p);
    SecsSplit(g, ch, q);
    hide *;
    if i != j { ClustersApart(g, ch[i], ch[j], Secs(g, ch)[p]); }
  }

  lemma SecsExtend(g: Geometry, ch: seq<nat>, c: nat)
    requires Clusters(g, ch) && 2 <= c < g.nFatent
    ensures Clusters(g, ch + [c])
    ensures Secs(g, ch + [c]) == Secs(g, ch) + ClusterSecs(g, c)
  {
    assert (ch + [c])[..|ch + [c]| - 1] == ch;
  }

  lemma {:induction false} SecsPrefix(g: Geometry, ch: seq<nat>, k: nat)
    requires Clusters(g, ch) && k <= |ch|
    ensures |Secs(g, ch[..k])| <= |Secs(g, ch)| && Secs(g, ch)[..|Secs(g, ch[..k])|] == Secs(g, ch[..k])
  {
    if k == |ch| {
      assert ch[..k] == ch;
    } else {
      var n := |ch| - 1;
      assert ch[..n][..k] == ch[..k];
      SecsPrefix(g, ch[..n], k);
    }
  }

  /** Sectors exist and hold 512 bytes each. */
  ghost predicate SectorsIn(m: seq<Sector>, secs: seq<nat>) {
    forall q :: 0 <= q < |secs| ==> secs[q] < |m|
  }

  /** The bytes in the sectors of a file, one after the other. */
  ghost function Content(m: seq<Sector>, secs: seq<nat>): (r: seq<byte>)
    requires SectorsIn(m, secs)
    ensures |r| == 512 * |secs|
    ensures forall i :: 0 <= i < |r| ==> r[i] == m[secs[i / 512]][i % 512]
  {
    seq(512 * |secs|, i requires 0 <= i < 512 * |secs| => m[secs[i / 512]][i % 512])
  }

  /** Part of one sector, as part of the file. */
  lemma SliceOfFile(m: seq<Sector>, secs: seq<nat>, q: nat, a: nat, b: nat)
    requires SectorsIn(m, secs) && q < |secs| && a <= b <= 512
    ensures 512 * q + b <= |Content(m, secs)|
    ensures Content(m, secs)[512 * q + a..512 * q + b] == m[secs[q]][a..b]
  {
    var c, d := Content(m, secs), m[secs[q]][a..b];
    var e := c[512 * q + a..512 * q + b];
    hide *;
    forall i | 0 <= i < b - a ensures e[i] == d[i] {
      Euclid(512 * q + a + i, 512, q, a + i);
    }
  }

  /** First sector of a cluster as the code computes it, in unsigned 32-bit arithmetic; 0 if out of range. */
  function Clust2Sect(g: Geometry, clst: nat): nat
    requires g.nFatent >= 2
  {
    var c := (clst - 2) % 0x1_0000_0000;
    if c >= g.nFatent - 2 then 0 else c * g.csize + g.database
  }

  /** It is 0 exactly for the numbers that are no cluster. */
  lemma Clust2SectIs(g: Geometry, clst: nat)
    requires g.Valid() && clst <= ALL_ONES
    ensures Clust2Sect(g, clst) == if 2 <= clst < g.nFatent then Sec(g, clst) else 0
    ensures 2 <= clst < g.nFatent ==> Clust2Sect(g, clst) == g.database + (clst - 2) * g.csize
    ensures 2 <= clst < g.nFatent ==> Sec(g, clst) > 0
  {
    if clst < 2 {
      Euclid(clst - 2, 0x1_0000_0000, -1, clst - 2 + 0x1_0000_0000);
    } else {
      Euclid(clst - 2, 0x1_0000_0000, 0, clst - 2);
      TimesIs(clst - 2, g.csize);
    }
  }
}
