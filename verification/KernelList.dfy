/** The kernel's intrusive doubly linked lists: rings of items around an end marker. */
module KernelList {
  import opened Seqs
  import opened KernelRing

  /** `portMAX_DELAY`, the value of every end marker. */
  const MAX_DELAY: nat := 0xFFFF_FFFF

  class ListItem {
    var value: nat
    var next: ListItem?
    var prev: ListItem?
    var container: KList?

    /** An item that is on no list. */
    constructor (value: nat)
      ensures this.value == value && container == null
    {
      this.value := value;
      next, prev, container := null, null, null;
    }
  }

  ghost function Succ(n: nat, i: nat): nat { if i + 1 >= n then 0 else i + 1 }

  /** The cells are linked in both directions, the last one to the first. */
  ghost predicate Linked(ring: seq<ListItem>)
    reads ring`next, ring`prev
  {
    forall i :: 0 <= i < |ring| ==> ring[i].next == ring[Succ(|ring|, i)] && ring[Succ(|ring|, i)].prev == ring[i]
  }

  lemma {:induction false} IndexIs(ring: seq<ListItem>, k: nat)
    requires Distinct(ring) && k < |ring|
    ensures IndexOf(ring, ring[k]) == k
  {
    if k > 0 { IndexIs(ring[1..], k - 1); }
  }

  lemma LinkedBack(ring: seq<ListItem>, k: nat)
    requires Linked(ring) && 1 <= k < |ring|
    ensures ring[k].prev == ring[k - 1] && Succ(|ring|, k) != k
  {
    assert Succ(|ring|, k - 1) == k;
    assert ring[Succ(|ring|, k - 1)].prev == ring[k - 1];
  }

  lemma LinkedAt(ring: seq<ListItem>, k: nat)
    requires Linked(ring) && k < |ring|
    ensures Succ(|ring|, k) < |ring| && ring[k].next == ring[Succ(|ring|, k)]
  {
  }

  /** `item` behind cell `k`. */
  ghost function Inserted(ring: seq<ListItem>, k: nat, item: ListItem): (r: seq<ListItem>)
    requires k < |ring|
    ensures |r| == |ring| + 1 && r[0] == ring[0] && r[k + 1] == item
    ensures forall i :: 0 <= i < |r| ==> r[i] == if i <= k then ring[i] else if i == k + 1 then item else ring[i - 1]
  {
    ring[..k + 1] + [item] + ring[k + 1..]
  }

  lemma InsertedDistinct(ring: seq<ListItem>, k: nat, item: ListItem)
    requires k < |ring| && Distinct(ring) && item !in ring
    ensures Distinct(Inserted(ring, k, item))
  {
  }

  ghost function Nexts(ring: seq<ListItem>): (r: seq<ListItem?>)
    reads ring
    ensures |r| == |ring| && forall i :: 0 <= i < |ring| ==> r[i] == ring[i].next
  {
    seq(|ring|, i requires 0 <= i < |ring| reads ring => ring[i].next)
  }

  ghost function Prevs(ring: seq<ListItem>): (r: seq<ListItem?>)
    reads ring
    ensures |r| == |ring| && forall i :: 0 <= i < |ring| ==> r[i] == ring[i].prev
  {
    seq(|ring|, i requires 0 <= i < |ring| reads ring => ring[i].prev)
  }

  /** The links `next` and `prev` make `ring` a ring. */
  ghost predicate Links(ring: seq<ListItem>, next: seq<ListItem?>, prev: seq<ListItem?>) {
    && |ring| == |next| == |prev|
    && forall i :: 0 <= i < |ring| ==> next[i] == ring[Succ(|ring|, i)] && prev[Succ(|ring|, i)] == ring[i]
  }

  lemma LinkedIs(ring: seq<ListItem>)
    ensures Linked(ring) <==> Links(ring, Nexts(ring), Prevs(ring))
  {
  }

  /** The four pointer updates of an insertion. */
  lemma InsertedLinks(ring: seq<ListItem>, k: nat, item: ListItem, next: seq<ListItem?>, prev: seq<ListItem?>)
    requires k < |ring| && Links(ring, next, prev)
    requires item.next == ring[Succ(|ring|, k)] && item.prev == ring[k]
    requires Nexts(ring) == next[k := item] && Prevs(ring) == prev[Succ(|ring|, k) := item]
    ensures Linked(Inserted(ring, k, item))
  {
    var r := Inserted(ring, k, item);
    forall i | 0 <= i < |r| ensures r[i].next == r[Succ(|r|, i)] && r[Succ(|r|, i)].prev == r[i] {
      if i <= k {
        assert ring[i].next == Nexts(ring)[i];
        } else if i > k + 1 { assert ring[i - 1].next == Nexts(ring)[i - 1];
      }
    }
  }

  class KList {
    var count: nat
    var index: ListItem
    const end: ListItem
    ghost var ring: seq<ListItem> // the marker, then the items in order

    ghost predicate Valid()
      reads this, ring
    {
      && |ring| == count + 1 && ring[0] == end && Distinct(ring) && Linked(ring) && index in ring
      && end.value == MAX_DELAY && end.container == null && Members(ring)
    }

    /** The items know the list they are in. */
    ghost predicate Members(ring: seq<ListItem>)
      reads ring`container, ring`value
    {
      forall i :: 1 <= i < |ring| ==> ring[i].container == this && ring[i].value <= MAX_DELAY
    }

    lemma Facts()
      requires Valid()
      ensures |ring| == count + 1 && ring[0] == end && Distinct(ring) && Linked(ring) && index in ring
      ensures end.value == MAX_DELAY && end.container == null && Members(ring)
    {
    }

    lemma ValidIntro()
      requires |ring| == count + 1 && ring[0] == end && Distinct(ring) && Linked(ring) && index in ring
      requires end.value == MAX_DELAY && end.container == null && Members(ring)
      ensures Valid()
    {
    }

    lemma Elsewhere(item: ListItem)
      requires Valid() && item.container == null && item != end
      ensures item !in ring
    {
    }

    lemma MembersInserted(k: nat, item: ListItem)
      requires k < |ring| && Members(ring) && item.container == this && item.value <= MAX_DELAY
      ensures Members(Inserted(ring, k, item))
    {
    }

    lemma AbsIs()
      requires Valid()
      ensures |ring| > 0 && index in ring && Abs() == Ring(ring[1..], IndexOf(ring, index))
    {
    }

    /** The list as a value. */
    ghost function Abs(): (r: Ring<ListItem>)
      requires Valid()
      reads this, ring
      ensures r.Valid() && |r.items| == count
    {
      Ring(ring[1..], IndexOf(ring, index))
    }

    ghost function Values(): (v: seq<nat>)
      requires Valid()
      reads this, ring
      ensures |v| == count
    {
      seq(count, i requires 0 <= i < count && Valid() reads this, ring => ring[i + 1].value)
    }

    constructor ()
      ensures Valid() && Abs() == Ring([], 0) && fresh(end)
    {
      var e := new ListItem(MAX_DELAY);
      end, index, count, ring := e, e, 0, [e];
      new;
      end.next := end;
      end.prev := end;
    }

    /** The four pointer updates of an insertion behind `at`. */
    method Link(at: ListItem, item: ListItem)
      requires Distinct(ring) && Linked(ring) && at in ring && item !in ring
      modifies item`next, item`prev, ring`next, ring`prev
      ensures Linked(Inserted(ring, IndexOf(ring, at), item)) && Distinct(Inserted(ring, IndexOf(ring, at), item))
    {
      hide *;
      ghost var k, ns, ps := IndexOf(ring, at), Nexts(ring), Prevs(ring);
      ghost var n := Succ(|ring|, k);
      LinkedIs(ring);
      LinkedAt(ring, k);
      InsertedDistinct(ring, k, item);
      var behind := at.next;
      item.next := behind;
      item.prev := at;
      behind.prev := item;
      at.next := item;
      forall i | 0 <= i < |ring| ensures Nexts(ring)[i] == ns[k := item][i] && Prevs(ring)[i] == ps[n := item][i] {
        DistinctAt(ring, i, k);
        DistinctAt(ring, i, n);
      }
      InsertedLinks(ring, k, item, ns, ps);
    }

    /** A new item where it will be the last to be visited. */
    method InsertEnd(item: ListItem)
      requires Valid() && item.container == null && item != end && item.value <= MAX_DELAY
      modifies this, item`next, item`prev, item`container, ring`next, ring`prev
      ensures Valid() && Abs() == old(Abs()).InsertEnd(item) && item.container == this
    {
      hide *;
      Facts();
      AbsIs();
      Elsewhere(item);
      ghost var k, r := IndexOf(ring, index), ring;
      Link(index, item);
      index := item;
      item.container := this;
      count := count + 1;
      MembersInserted(k, item);
      ring := Inserted(ring, k, item);
      IndexIs(ring, k + 1);
      ValidIntro();
      AbsIs();
      InsertedEnd(r, k, item);
    }

    /** The cell behind which a value belongs. */
    method Place(v: nat) returns (at: ListItem, ghost k: nat)
      requires Valid() && v <= MAX_DELAY
      ensures k == Position(Values(), v) < |ring| && at == ring[Position(Values(), v)]
    {
      hide *;
      Facts();
      Last();
      at, k := end, 0;
      if v == MAX_DELAY {
        at := end.prev;
        k := count;
      } else {
        WalkStart(v);
        while at.next.value <= v
          invariant k < |ring| && ring[k] == at && at.next != null && Before(k, at, v)
          decreases |ring| - k
        {
          WalkStep(k, at, v);
          at := at.next;
          k := k + 1;
        }
        WalkEnd(k, at, v);
      }
      PositionFound(k, v);
    }

    /** A new item behind all that are not greater. */
    method Insert(item: ListItem)
      requires Valid() && item.container == null && item != end && item.value <= MAX_DELAY
      modifies this, item`next, item`prev, item`container, ring`next, ring`prev
      ensures Valid() && Abs() == old(Abs()).InsertAt(Position(old(Values()), item.value), item)
      ensures item.container == this
    {
      hide *;
      Facts();
      AbsIs();
      Elsewhere(item);
      ghost var r, i := ring, IndexOf(ring, index);
      var at, k := Place(item.value);
      IndexIs(ring, k);
      Link(at, item);
      item.container := this;
      count := count + 1;
      MembersInserted(k, item);
      ring := Inserted(ring, k, item);
      InsertedIndex(r, k, item, i);
      ValidIntro();
      AbsIs();
      InsertedBehind(r, k, item, i);
    }

    /** The two pointer updates of a removal. */
    method Unlink(item: ListItem)
      requires Valid() && item in ring && 1 <= IndexOf(ring, item)
      modifies ring`next, ring`prev
      ensures Linked(Removed(ring, IndexOf(ring, item))) && item.prev == ring[IndexOf(ring, item) - 1]
    {
      hide *;
      Facts();
      ghost var k, ns, ps := IndexOf(ring, item), Nexts(ring), Prevs(ring);
      ghost var n := Succ(|ring|, k);
      LinkedIs(ring);
      LinkedAt(ring, k);
      LinkedBack(ring, k);
      DistinctAt(ring, k, k - 1);
      var behind, before := item.next, item.prev;
      behind.prev := item.prev;
      before.next := behind;
      forall i | 0 <= i < |ring|
        ensures Nexts(ring)[i] == ns[k - 1 := ring[n]][i] && Prevs(ring)[i] == ps[n := ring[k - 1]][i]
      {
        DistinctAt(ring, i, k - 1);
        DistinctAt(ring, i, n);
      }
      RemovedLinks(ring, k, ns, ps);
    }

    /** Unlink an item of this list and correct index, count and container. */
    method Release(item: ListItem)
      requires Valid() && item in ring && item.container == this
      modifies this, item`container, ring`next, ring`prev
      ensures Valid() && item.container == null && 1 <= IndexOf(old(ring), item) < |old(ring)|
      ensures Abs() == old(Abs()).Remove(IndexOf(old(ring), item) - 1)
    {
      hide *;
      Facts();
      AbsIs();
      ghost var r, i, k := ring, IndexOf(ring, index), IndexOf(ring, item);
      NotMarker(k);
      MembersRemoved(k);
      RemovedIndex(r, k, i);
      DistinctAt(r, 0, k);
      Unlink(item);
      if index == item { index := item.prev; }
      Forget(item, k);
      AbsIs();
      RemovedAbs(r, k, i);
    }

    /** The item is out of the ring: it has no container any more. */
    method Forget(item: ListItem, ghost k: nat)
      requires 1 <= k < |ring| == count + 1 && item !in Removed(ring, k) && item != end && ring[0] == end
      requires end.value == MAX_DELAY && end.container == null && index in Removed(ring, k)
      requires Members(Removed(ring, k)) && Linked(Removed(ring, k)) && Distinct(Removed(ring, k))
      modifies `count, `ring, item`container
      ensures Valid() && item.container == null && ring == Removed(old(ring), k)
    {
      hide *;
      item.container := null;
      count := count - 1;
      ring := Removed(ring, k);
      ValidIntro();
    }

    lemma NotMarker(k: nat)
      requires Valid() && k < |ring| && ring[k].container == this
      ensures k >= 1
    {
    }

    lemma MembersRemoved(k: nat)
      requires 1 <= k < |ring| && Members(ring)
      ensures Members(Removed(ring, k))
    {
    }

    /** Move the index on and return the item there; its owner is the task to run next. */
    method NextEntry() returns (item: ListItem)
      requires Valid() && count > 0
      modifies `index
      ensures Valid() && Abs() == old(Abs()).Next() && item == Abs().Current()
    {
      index := index.next;
      if index == end { index := index.next; }
      item := index;
    }

    /** The search is at cell `k`; nothing up to there is greater than `v`. */
    ghost predicate Before(k: nat, at: ListItem, v: nat)
      reads this, ring`value
    {
      k < |ring| && ring[k] == at && forall j :: 1 <= j <= k ==> ring[j].value <= v
    }

    /** The marker's predecessor is the last cell. */
    lemma Last()
      requires Valid()
      ensures count < |ring| && ring[count] == end.prev
      ensures end.next != null
    {
      assert ring[Succ(|ring|, count)] == end;
      assert ring[0].next == ring[Succ(|ring|, 0)];
    }

    lemma WalkStart(v: nat)
      requires Valid()
      ensures Before(0, end, v)
    {
    }

    lemma WalkStep(k: nat, at: ListItem, v: nat)
      requires Valid() && Before(k, at, v) && at.next != null && at.next.value <= v < MAX_DELAY
      ensures Before(k + 1, at.next, v) && k + 1 < |ring| && ring[k + 1] == at.next && at.next.next != null
    {
      assert ring[k].next == ring[Succ(|ring|, k)];
      assert ring[Succ(|ring|, k)].next != null;
    }

    lemma WalkEnd(k: nat, at: ListItem, v: nat)
      requires Valid() && Before(k, at, v) && at.next != null && at.next.value > v
      ensures k < |ring| && ring[k] == at && (forall j :: 1 <= j <= k ==> ring[j].value <= v)
      ensures k < count ==> ring[k + 1].value > v
    {
    }

    lemma PositionFound(k: nat, v: nat)
      requires Valid() && k < |ring| && v <= MAX_DELAY
      requires if v == MAX_DELAY then k == count
               else (forall j :: 1 <= j <= k ==> ring[j].value <= v) && (k < count ==> ring[k + 1].value > v)
      ensures Position(Values(), v) == k
    {
      PositionIs(Values(), v, k);
    }
  }

  /** Take an item off the list it is on. */
  method Remove(item: ListItem)
    requires item.container != null && item.container.Valid() && item in item.container.ring
    modifies item.container, item`container, item.container.ring`next, item.container.ring`prev
    ensures var l := old(item.container);
            && l.Valid() && item.container == null && 1 <= IndexOf(old(l.ring), item) < |old(l.ring)|
            && l.Abs() == old(l.Abs()).Remove(IndexOf(old(l.ring), item) - 1)
  {
    var owner := item.container;
    owner.Release(item);
  }

  /** The ring without cell `k`. */
  ghost function Removed(ring: seq<ListItem>, k: nat): (r: seq<ListItem>)
    requires 1 <= k < |ring|
    ensures |r| == |ring| - 1 && r[0] == ring[0]
    ensures forall i :: 0 <= i < |r| ==> r[i] == ring[if i < k then i else i + 1]
  {
    ring[..k] + ring[k + 1..]
  }

  /** The two pointer updates of a removal. */
  lemma RemovedLinks(ring: seq<ListItem>, k: nat, next: seq<ListItem?>, prev: seq<ListItem?>)
    requires 1 <= k < |ring| && Links(ring, next, prev) && Succ(|ring|, k) < |ring|
    requires Nexts(ring) == next[k - 1 := ring[Succ(|ring|, k)]] && Prevs(ring) == prev[Succ(|ring|, k) := ring[k - 1]]
    ensures Linked(Removed(ring, k))
  {
    var r := Removed(ring, k);
    forall i | 0 <= i < |r| ensures r[i].next == r[Succ(|r|, i)] && r[Succ(|r|, i)].prev == r[i] {
      RemovedLink(ring, k, next, prev, i);
    }
  }

  lemma RemovedLink(ring: seq<ListItem>, k: nat, next: seq<ListItem?>, prev: seq<ListItem?>, i: nat)
    requires 1 <= k < |ring| && Links(ring, next, prev) && Succ(|ring|, k) < |ring| && i < |ring| - 1
    requires Nexts(ring) == next[k - 1 := ring[Succ(|ring|, k)]] && Prevs(ring) == prev[Succ(|ring|, k) := ring[k - 1]]
    ensures var r := Removed(ring, k); r[i].next == r[Succ(|r|, i)] && r[Succ(|r|, i)].prev == r[i]
  {
    hide Removed;
    RemovedNext(ring, k, next, prev, i);
    RemovedPrev(ring, k, next, prev, i);
  }

  lemma LinksAt(ring: seq<ListItem>, next: seq<ListItem?>, prev: seq<ListItem?>, i: nat)
    requires Links(ring, next, prev) && i < |ring|
    ensures Succ(|ring|, i) < |ring| == |next| == |prev| && next[i] == ring[Succ(|ring|, i)]
    ensures prev[Succ(|ring|, i)] == ring[i]
  {
  }

  /** Where the neighbours in the shorter ring were in the longer one. */
  lemma ShorterRing(n: nat, k: nat, i: nat)
    requires 1 <= k < n && i < n - 1
    ensures var j, m := if i < k then i else i + 1, Succ(n - 1, i);
            var l := if m < k then m else m + 1;
            && m < n - 1 && j != k && l < n
            && (if j == k - 1 then l == Succ(n, k) else l == Succ(n, j) && l != Succ(n, k))
  {
  }

  lemma RemovedNext(ring: seq<ListItem>, k: nat, next: seq<ListItem?>, prev: seq<ListItem?>, i: nat)
    requires 1 <= k < |ring| && Links(ring, next, prev) && Succ(|ring|, k) < |ring| && i < |ring| - 1
    requires Nexts(ring) == next[k - 1 := ring[Succ(|ring|, k)]]
    ensures var r := Removed(ring, k); Succ(|r|, i) < |r| && r[i].next == r[Succ(|r|, i)]
  {
    hide *;
    var j := if i < k then i else i + 1;
    ShorterRing(|ring|, k, i);
    LinksAt(ring, next, prev, j);
    assert ring[j].next == Nexts(ring)[j];
  }

  lemma RemovedPrev(ring: seq<ListItem>, k: nat, next: seq<ListItem?>, prev: seq<ListItem?>, i: nat)
    requires 1 <= k < |ring| && Links(ring, next, prev) && Succ(|ring|, k) < |ring| && i < |ring| - 1
    requires Prevs(ring) == prev[Succ(|ring|, k) := ring[k - 1]]
    ensures var r := Removed(ring, k); Succ(|r|, i) < |r| && r[Succ(|r|, i)].prev == r[i]
  {
    hide *;
    var j, m := if i < k then i else i + 1, Succ(|ring| - 1, i);
    var l := if m < k then m else m + 1;
    ShorterRing(|ring|, k, i);
    LinksAt(ring, next, prev, j);
    assert ring[l].prev == Prevs(ring)[l];
  }

  lemma RemovedDistinct(ring: seq<ListItem>, k: nat)
    requires 1 <= k < |ring| && Distinct(ring)
    ensures Distinct(Removed(ring, k)) && ring[k] !in Removed(ring, k)
  {
  }

  /** The cell of the index after a removal. */
  lemma RemovedIndex(ring: seq<ListItem>, k: nat, i: nat)
    requires 1 <= k < |ring| && i < |ring| && Distinct(ring)
    ensures Distinct(Removed(ring, k)) && ring[k] !in Removed(ring, k)
    ensures var at := if i == k then ring[k - 1] else ring[i];
            at in Removed(ring, k) && IndexOf(Removed(ring, k), at) == if i >= k then i - 1 else i
    ensures i != k ==> ring[i] != ring[k]
  {
    RemovedDistinct(ring, k);
    var p: nat := if i >= k then i - 1 else i;
    assert Removed(ring, k)[p] == if i == k then ring[k - 1] else ring[i];
    IndexIs(Removed(ring, k), p);
  }

  lemma RemovedAbs(ring: seq<ListItem>, k: nat, i: nat)
    requires 1 <= k < |ring| && i < |ring|
    ensures Ring(Removed(ring, k)[1..], if i >= k then i - 1 else i) == Ring(ring[1..], i).Remove(k - 1)
  {
    assert Removed(ring, k)[1..] == ring[1..][..k - 1] + ring[1..][k..];
  }

  /** The cell of the index after an insertion. */
  lemma InsertedIndex(ring: seq<ListItem>, k: nat, item: ListItem, i: nat)
    requires k < |ring| && i < |ring| && Distinct(ring) && item !in ring
    ensures var i' := if i > k then i + 1 else i;
            Inserted(ring, k, item)[i'] == ring[i] && IndexOf(Inserted(ring, k, item), ring[i]) == i'
    ensures ring[i] in Inserted(ring, k, item)
  {
    InsertedDistinct(ring, k, item);
    IndexIs(Inserted(ring, k, item), if i > k then i + 1 else i);
  }

  lemma InsertedBehind(ring: seq<ListItem>, k: nat, item: ListItem, i: nat)
    requires k < |ring| && i < |ring|
    ensures Ring(Inserted(ring, k, item)[1..], if i > k then i + 1 else i) == Ring(ring[1..], i).InsertAt(k, item)
  {
    assert Inserted(ring, k, item)[1..] == ring[1..][..k] + [item] + ring[1..][k..];
  }

  lemma InsertedEnd(ring: seq<ListItem>, k: nat, item: ListItem)
    requires k < |ring|
    ensures Ring(Inserted(ring, k, item)[1..], k + 1) == Ring(ring[1..], k).InsertEnd(item)
  {
    assert Inserted(ring, k, item)[1..] == ring[1..][..k] + [item] + ring[1..][k..];
  }
}
