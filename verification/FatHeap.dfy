/** What cluster chains look like in a FAT, and which single-entry updates keep them well-formed. */
module FatHeap {
  import opened Seqs

  /** No link leads to a free cluster. */
  ghost predicate NoDangling(f: seq<nat>) {
    forall c :: 2 <= c < |f| && 2 <= f[c] < |f| ==> f[f[c]] != 0
  }

  /** No cluster has two predecessors. */
  ghost predicate Unshared(f: seq<nat>) {
    forall c, d :: 2 <= c < |f| && 2 <= d < |f| && c != d && 2 <= f[c] < |f| ==> f[c] != f[d]
  }

  ghost predicate Ranked(f: seq<nat>, rank: seq<nat>) {
    |rank| == |f| && forall c :: 2 <= c < |f| && 2 <= f[c] < |f| ==> rank[f[c]] < rank[c]
  }

  /** Following links ends. */
  ghost predicate Acyclic(f: seq<nat>) {
    exists rank :: Ranked(f, rank)
  }

  ghost predicate HeapOK(f: seq<nat>) {
    && NoDangling(f) && Unshared(f) && Acyclic(f)
    && forall c :: 2 <= c < |f| ==> f[c] != 1
  }

  /** No entry links to `c`. */
  ghost predicate Unlinked(f: seq<nat>, c: nat) {
    forall d :: 2 <= d < |f| ==> f[d] != c
  }

  /** `ch` is a complete chain: in range, linked, ended by an end mark. */
  ghost predicate IsChain(f: seq<nat>, ch: seq<nat>) {
    && |ch| > 0
    && (forall i :: 0 <= i < |ch| ==> 2 <= ch[i] < |f|)
    && (forall i :: 0 <= i < |ch| - 1 ==> f[ch[i]] == ch[i + 1])
    && f[ch[|ch| - 1]] >= |f|
  }

  /** `ch` is the chain that starts at `head`, to which nothing links; there is none at 0. */
  ghost predicate Starts(f: seq<nat>, head: nat, ch: seq<nat>) {
    if head == 0 then ch == [] else IsChain(f, ch) && ch[0] == head && Unlinked(f, head)
  }

  ghost function CountFree(f: seq<nat>): (n: nat)
    ensures n <= |f|
  {
    if |f| <= 2 then 0 else CountFree(f[..|f| - 1]) + if f[|f| - 1] == 0 then 1 else 0
  }

  ghost function CountUsed(f: seq<nat>): (n: nat)
    ensures n <= |f|
  {
    if |f| <= 2 then 0 else CountUsed(f[..|f| - 1]) + if f[|f| - 1] == 0 then 0 else 1
  }

  lemma {:induction false} CountUpdate(f: seq<nat>, c: nat, v: nat)
    requires 2 <= c < |f|
    ensures CountFree(f[c := v]) == CountFree(f) - (if f[c] == 0 then 1 else 0) + (if v == 0 then 1 else 0)
    ensures CountUsed(f[c := v]) == CountUsed(f) - (if f[c] == 0 then 0 else 1) + (if v == 0 then 0 else 1)
  {
    var k := |f| - 1;
    if c == k {
      assert f[c := v][..k] == f[..k];
    } else {
      assert f[c := v][..k] == f[..k][c := v];
      CountUpdate(f[..k], c, v);
    }
  }

  /** Marking a free cluster as the last of a chain. */
  lemma MarkKeeps(f: seq<nat>, c: nat, mark: nat)
    requires HeapOK(f) && 2 <= c < |f| && f[c] == 0 && mark >= |f|
    ensures HeapOK(f[c := mark]) && Unlinked(f[c := mark], c)
  {
    var f' := f[c := mark];
    assert Unlinked(f, c);
    var rank :| Ranked(f, rank);
    assert Ranked(f', rank);
  }

  /** Linking the end of a chain to a marked cluster that nothing links to. */
  lemma LinkKeeps(f: seq<nat>, c: nat, d: nat)
    requires HeapOK(f) && 2 <= c < |f| && 2 <= d < |f| && c != d
    requires f[c] >= |f| && f[d] >= |f| && Unlinked(f, d)
    ensures HeapOK(f[c := d])
  {
    var f' := f[c := d];
    var rank :| Ranked(f, rank);
    var rank' := seq(|f|, i requires 0 <= i < |f| => if i == d then 0 else rank[i] + 1);
    forall i | 2 <= i < |f| && 2 <= f'[i] < |f| ensures rank'[f'[i]] < rank'[i] {
      if i != c { assert f'[i] == f[i] != d; }
      assert i != d;
    }
    assert Ranked(f', rank');
  }

  /** Freeing a cluster that nothing links to; its successor then has no predecessor left. */
  lemma FreeKeeps(f: seq<nat>, c: nat)
    requires HeapOK(f) && 2 <= c < |f| && Unlinked(f, c)
    ensures HeapOK(f[c := 0])
    ensures 2 <= f[c] < |f| ==> Unlinked(f[c := 0], f[c])
  {
    var rank :| Ranked(f, rank);
    assert Ranked(f[c := 0], rank);
  }

  /** Ending a chain early; what followed then has no predecessor left. */
  lemma EndKeeps(f: seq<nat>, c: nat, mark: nat)
    requires HeapOK(f) && 2 <= c < |f| && f[c] != 0 && mark >= |f|
    ensures HeapOK(f[c := mark])
    ensures 2 <= f[c] < |f| ==> Unlinked(f[c := mark], f[c])
  {
    var rank :| Ranked(f, rank);
    assert Ranked(f[c := mark], rank);
  }

  /** In a well-formed FAT every allocated cluster starts a finite chain. */
  lemma {:induction false} ChainExists(f: seq<nat>, rank: seq<nat>, c: nat) returns (ch: seq<nat>)
    requires HeapOK(f) && Ranked(f, rank) && 2 <= c < |f| && f[c] != 0
    ensures IsChain(f, ch) && ch[0] == c
    decreases rank[c]
  {
    if f[c] >= |f| {
      ch := [c];
    } else {
      var rest := ChainExists(f, rank, f[c]);
      ch := [c] + rest;
    }
  }

  /** So does every allocated head. */
  lemma StartsExists(f: seq<nat>, head: nat) returns (ch: seq<nat>)
    requires HeapOK(f) && (head == 0 || (2 <= head < |f| && f[head] != 0 && Unlinked(f, head)))
    ensures Starts(f, head, ch)
  {
    ch := [];
    if head != 0 {
      var rank :| Ranked(f, rank);
      ch := ChainExists(f, rank, head);
    }
  }

  /** A chain visits clusters of falling rank, so none twice. */
  lemma {:induction false} ChainFalls(f: seq<nat>, rank: seq<nat>, ch: seq<nat>, i: nat, j: nat)
    requires Ranked(f, rank) && IsChain(f, ch) && i < j < |ch|
    ensures rank[ch[j]] < rank[ch[i]]
    decreases j
  {
    assert f[ch[j - 1]] == ch[j];
    if i < j - 1 { ChainFalls(f, rank, ch, i, j - 1); }
  }

  lemma ChainDistinct(f: seq<nat>, ch: seq<nat>)
    requires HeapOK(f) && IsChain(f, ch)
    ensures Distinct(ch)
  {
    var rank :| Ranked(f, rank);
    forall i, j | 0 <= i < j < |ch| ensures ch[i] != ch[j] { ChainFalls(f, rank, ch, i, j); }
  }

  /** Two chains that meet have a common tail, and the same predecessors back to the head of one. */
  lemma {:induction false} ChainsMeet(f: seq<nat>, a: seq<nat>, b: seq<nat>, i: nat, j: nat)
    requires HeapOK(f) && IsChain(f, a) && IsChain(f, b) && i < |a| && j < |b| && a[i] == b[j]
    ensures i <= j ==> a[0] == b[j - i]
    ensures j <= i ==> b[0] == a[i - j]
    decreases i
  {
    if i > 0 && j > 0 {
      assert f[a[i - 1]] == a[i] == b[j] == f[b[j - 1]];
      ChainsMeet(f, a, b, i - 1, j - 1);
    }
  }

  lemma HeadIsFirst(f: seq<nat>, ch: seq<nat>, head: nat, k: nat)
    requires IsChain(f, ch) && Unlinked(f, head) && 0 < k < |ch|
    ensures ch[k] != head
  {
    assert f[ch[k - 1]] == ch[k];
  }

  /** Chains that start at different clusters without predecessor are disjoint. */
  lemma ChainsDisjoint(f: seq<nat>, a: seq<nat>, b: seq<nat>)
    requires HeapOK(f) && IsChain(f, a) && IsChain(f, b)
    requires Unlinked(f, a[0]) && Unlinked(f, b[0]) && a[0] != b[0]
    ensures forall c :: c in a ==> c !in b
  {
    forall i, j | 0 <= i < |a| && 0 <= j < |b| ensures a[i] != b[j] {
      if a[i] == b[j] {
        ChainsMeet(f, a, b, i, j);
        if i < j { HeadIsFirst(f, b, a[0], j - i); }
        if j < i { HeadIsFirst(f, a, b[0], i - j); }
      }
    }
  }

  datatype Walked = Walked(fat: seq<nat>, freed: seq<nat>, intErr: bool)

  /** Freeing from `c` on, link by link, whatever the FAT holds: the walk stops at an end
      mark, at a cluster that is already free, or with an error at an entry of value 1. */
  ghost function Walk(f: seq<nat>, c: nat): (w: Walked)
    requires 2 <= c
    ensures |w.fat| == |f|
    decreases CountUsed(f)
  {
    if c >= |f| || f[c] == 0 then Walked(f, [], false)
    else if f[c] == 1 then Walked(f, [], true)
    else
      CountUpdate(f, c, 0);
      var rest := Walk(f[c := 0], f[c]);
      rest.(freed := [c] + rest.freed)
  }

  /** The walk frees each cluster once, exactly the ones it lists, and no other entry changes. */
  lemma {:induction false} WalkFrees(f: seq<nat>, c: nat)
    requires 2 <= c
    ensures var w := Walk(f, c);
            && Distinct(w.freed)
            && (forall d :: d in w.freed ==> 2 <= d < |f| && f[d] != 0 && w.fat[d] == 0)
            && (forall d :: 0 <= d < |f| && d !in w.freed ==> w.fat[d] == f[d])
    ensures CountFree(Walk(f, c).fat) == CountFree(f) + |Walk(f, c).freed|
    decreases CountUsed(f)
  {
    if c < |f| && f[c] > 1 {
      CountUpdate(f, c, 0);
      WalkFrees(f[c := 0], f[c]);
      DistinctCons(c, Walk(f[c := 0], f[c]).freed);
    }
  }

  /** On a chain whose head nothing links to, the walk frees the chain, the whole chain, and
      nothing else; no FAT on the way has a dangling link. */
  lemma {:induction false} WalkChain(f: seq<nat>, ch: seq<nat>)
    requires HeapOK(f) && IsChain(f, ch) && Unlinked(f, ch[0])
    ensures Walk(f, ch[0]).freed == ch && !Walk(f, ch[0]).intErr && HeapOK(Walk(f, ch[0]).fat)
    decreases |ch|
  {
    var c := ch[0];
    FreeKeeps(f, c);
    if |ch| > 1 {
      assert f[c] == ch[1];
      ChainDistinct(f, ch);
      assert IsChain(f[c := 0], ch[1..]);
      WalkChain(f[c := 0], ch[1..]);
    }
  }
}
