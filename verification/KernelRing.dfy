/** A kernel list as a value: its items in order and the place its index points at. */
module KernelRing {
  import opened Seqs

  /** `at` is 0 for the end marker and `k` for `items[k - 1]`. */
  datatype Ring<T> = Ring(items: seq<T>, at: nat) {
    ghost predicate Valid() { at <= |items| }

    /** The index moves on to the next item, past the marker. */
    function Next(): (r: Ring<T>)
      requires Valid() && |items| > 0
      ensures r.Valid() && r.at > 0
    {
      this.(at := if at == |items| then 1 else at + 1)
    }

    /** The item at the index. */
    function Current(): T
      requires Valid() && at > 0
    {
      items[at - 1]
    }

    /** A new item behind the index, which moves to it. */
    function InsertEnd(x: T): (r: Ring<T>)
      requires Valid()
      ensures r.Valid()
    {
      Ring(items[..at] + [x] + items[at..], at + 1)
    }

    /** A new item at position `p`, the index staying on its item. */
    function InsertAt(p: nat, x: T): (r: Ring<T>)
      requires Valid() && p <= |items|
      ensures r.Valid()
    {
      Ring(items[..p] + [x] + items[p..], if at > p then at + 1 else at)
    }

    /** Without item `i`; an index on it moves back to the one before. */
    function Remove(i: nat): (r: Ring<T>)
      requires Valid() && i < |items|
      ensures r.Valid()
    {
      Ring(items[..i] + items[i + 1..], if at > i then at - 1 else at)
    }

    /** How many moves until the index is on item `i`. */
    ghost function Turn(i: nat): (d: nat)
      requires Valid() && i < |items|
      ensures 1 <= d <= |items|
    {
      if i >= at then i + 1 - at else |items| - at + i + 1
    }
  }

  /** The ring after `k` moves of the index. */
  ghost function Moved<T>(r: Ring<T>, k: nat): (r': Ring<T>)
    requires r.Valid() && |r.items| > 0
    ensures r'.Valid() && r'.items == r.items && (k > 0 ==> r'.at > 0)
  {
    if k == 0 then r else Moved(r, k - 1).Next()
  }

  lemma {:induction false} MovedAt<T>(r: Ring<T>, k: nat)
    requires r.Valid() && |r.items| > 0 && k <= |r.items|
    ensures Moved(r, k).at == if r.at + k <= |r.items| then r.at + k else r.at + k - |r.items|
  {
    if k > 0 { MovedAt(r, k - 1); }
  }

  /** Round robin: an item's turn comes when it is due, and not before. */
  lemma TurnIsExact<T>(r: Ring<T>, i: nat, k: nat)
    requires r.Valid() && i < |r.items| && 1 <= k <= |r.items|
    ensures Moved(r, k).at == i + 1 <==> k == r.Turn(i)
  {
    MovedAt(r, k);
  }

  /** The items that `k` successive moves return. */
  ghost function Visited<T>(r: Ring<T>, k: nat): (v: seq<T>)
    requires r.Valid() && |r.items| > 0
    ensures |v| == k
  {
    if k == 0 then [] else Visited(r, k - 1) + [Moved(r, k).Current()]
  }

  lemma {:induction false} VisitedAt<T>(r: Ring<T>, k: nat, j: nat)
    requires r.Valid() && |r.items| > 0 && j < k
    ensures Visited(r, k)[j] == Moved(r, j + 1).Current()
  {
    if j < k - 1 { VisitedAt(r, k - 1, j); }
  }

  /** The items from the index on, around the end. */
  ghost function FromIndex<T>(r: Ring<T>): (v: seq<T>)
    requires r.Valid()
    ensures |v| == |r.items|
    ensures forall j :: 0 <= j < |v| ==> v[j] == r.items[if r.at + j < |v| then r.at + j else r.at + j - |v|]
  {
    r.items[r.at..] + r.items[..r.at]
  }

  lemma FromIndexAt<T>(r: Ring<T>, j: nat)
    requires r.Valid() && j < |r.items|
    ensures r.at <= |r.items| == |FromIndex(r)|
    ensures FromIndex(r)[j] == r.items[if r.at + j < |r.items| then r.at + j else r.at + j - |r.items|]
  {
  }

  lemma RoundAt<T>(r: Ring<T>, j: nat)
    requires r.Valid() && j < |r.items|
    ensures Visited(r, |r.items|)[j] == FromIndex(r)[j]
  {
    hide *;
    VisitedAt(r, |r.items|, j);
    MovedAt(r, j + 1);
    var m := Moved(r, j + 1);
    CurrentIs(m);
    FromIndexAt(r, j);
    assert m.at - 1 == if r.at + j < |r.items| then r.at + j else r.at + j - |r.items|;
  }

  /** As many moves as there are items visit each of them once, in ring order from the index. */
  lemma OneRound<T>(r: Ring<T>)
    requires r.Valid() && |r.items| > 0
    ensures Visited(r, |r.items|) == FromIndex(r)
    ensures Moved(r, |r.items|).at == if r.at == 0 then |r.items| else r.at
  {
    var n := |r.items|;
    MovedAt(r, n);
    hide *;
    forall j | 0 <= j < n ensures Visited(r, n)[j] == FromIndex(r)[j] { RoundAt(r, j); }
    assert Visited(r, n) == FromIndex(r);
  }

  lemma CurrentIs<T>(r: Ring<T>)
    requires r.Valid() && r.at > 0
    ensures r.at <= |r.items| && r.Current() == r.items[r.at - 1]
  {
  }

  /** A new item is visited after all present ones, whose order does not change. */
  lemma InsertEndIsLast<T>(r: Ring<T>, x: T)
    requires r.Valid()
    ensures FromIndex(r.InsertEnd(x)) == FromIndex(r) + [x]
    ensures Visited(r.InsertEnd(x), |r.items| + 1) == FromIndex(r) + [x]
  {
    OneRound(r.InsertEnd(x));
    assert FromIndex(r.InsertEnd(x)) == FromIndex(r) + [x];
  }

  /** A move of the index returns the first item of the round, which is then the last. */
  lemma NextTurns<T>(r: Ring<T>)
    requires r.Valid() && |r.items| > 0
    ensures r.Next().Current() == FromIndex(r)[0] && FromIndex(r.Next()) == FromIndex(r)[1..] + FromIndex(r)[..1]
  {
    assert FromIndex(r.Next()) == FromIndex(r)[1..] + FromIndex(r)[..1];
  }

  lemma FromIndexHas<T>(r: Ring<T>, x: T)
    requires r.Valid()
    ensures x in FromIndex(r) <==> x in r.items
  {
    assert r.items == r.items[..r.at] + r.items[r.at..];
  }

  lemma FromIndexDistinct<T>(r: Ring<T>)
    requires r.Valid() && Distinct(r.items)
    ensures Distinct(FromIndex(r))
  {
  }

  /** An item inserted elsewhere leaves the index on its item, so that it only adds to the round. */
  lemma InsertAtStays<T>(r: Ring<T>, p: nat, x: T)
    requires r.Valid() && p <= |r.items|
    ensures var r' := r.InsertAt(p, x);
            && r'.items[p] == x && (r'.at == 0 <==> r.at == 0) && (r.at > 0 ==> r'.Current() == r.Current())
    ensures var v, k := FromIndex(r), if p >= r.at then p - r.at else |r.items| - r.at + p;
            FromIndex(r.InsertAt(p, x)) == v[..k] + [x] + v[k..]
  {
    var r', v := r.InsertAt(p, x), FromIndex(r);
    var k := if p >= r.at then p - r.at else |r.items| - r.at + p;
    assert FromIndex(r') == v[..k] + [x] + v[k..];
  }

  /** Removing an item skips nobody: the round goes on without it, in the same order. */
  lemma RemoveSkipsNobody<T>(r: Ring<T>, i: nat)
    requires r.Valid() && i < |r.items| && |r.items| > 1
    ensures var round := Visited(r, |r.items|);
            && round[r.Turn(i) - 1] == r.items[i]
            && Visited(r.Remove(i), |r.items| - 1) == round[..r.Turn(i) - 1] + round[r.Turn(i)..]
    ensures r.at == i + 1 ==> r.Turn(i) == |r.items|
  {
    hide *;
    TurnIs(r, i);
    OneRound(r);
    OneRound(r.Remove(i));
    RemoveFrom(r, i);
  }

  lemma TurnIs<T>(r: Ring<T>, i: nat)
    requires r.Valid() && i < |r.items|
    ensures |r.Remove(i).items| == |r.items| - 1 && (r.at == i + 1 ==> r.Turn(i) == |r.items|)
  {
  }

  lemma RemoveFrom<T>(r: Ring<T>, i: nat)
    requires r.Valid() && i < |r.items|
    ensures var v, t := FromIndex(r), r.Turn(i) - 1;
            v[t] == r.items[i] && FromIndex(r.Remove(i)) == v[..t] + v[t + 1..]
  {
    var v, w, t := FromIndex(r), FromIndex(r.Remove(i)), r.Turn(i) - 1;
    forall j | 0 <= j < |w| ensures w[j] == v[if j < t then j else j + 1] {
      RemovedAt(r, i, j);
    }
    hide *;
    assert w == v[..t] + v[t + 1..];
  }

  lemma RemovedAt<T>(r: Ring<T>, i: nat, j: nat)
    requires r.Valid() && i < |r.items| && j < |r.items| - 1
    ensures FromIndex(r.Remove(i))[j] == FromIndex(r)[if j < r.Turn(i) - 1 then j else j + 1]
  {
  }

  /** Where a value belongs: behind everything that is not greater. */
  function Position(values: seq<nat>, v: nat): (p: nat)
    ensures p <= |values|
    ensures forall k :: 0 <= k < p ==> values[k] <= v
    ensures p < |values| ==> values[p] > v
  {
    if values == [] || values[0] > v then 0 else 1 + Position(values[1..], v)
  }

  lemma {:induction false} PositionIs(values: seq<nat>, v: nat, p: nat)
    requires p <= |values| && (forall k :: 0 <= k < p ==> values[k] <= v) && (p < |values| ==> values[p] > v)
    ensures Position(values, v) == p
  {
    if p > 0 { PositionIs(values[1..], v, p - 1); }
  }

  ghost predicate Sorted(values: seq<nat>) {
    forall i, j :: 0 <= i < j < |values| ==> values[i] <= values[j]
  }

  /** Sorted insertion keeps the order, and comes last among equals. */
  lemma InsertKeepsSorted(values: seq<nat>, v: nat)
    requires Sorted(values)
    ensures var p := Position(values, v);
            && Sorted(values[..p] + [v] + values[p..])
            && forall k :: p <= k < |values| ==> values[k] > v
  {
  }

  /** Removing keeps the order. */
  lemma RemoveKeepsSorted(values: seq<nat>, i: nat)
    requires Sorted(values) && i < |values|
    ensures Sorted(values[..i] + values[i + 1..])
  {
  }
}
