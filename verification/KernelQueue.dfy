/** A queue: items in a ring of bytes, the tasks that wait for it, and its lock counters. */
module KernelQueue {
  import opened Bytes

  /** A queue as a value. The locks count the items added or removed by interrupts while the
      queue is locked; -1 means unlocked. */
  datatype Q = Q(items: seq<seq<byte>>, length: nat, waitRecv: seq<nat>, waitSend: seq<nat>, txLock: int, rxLock: int)

  /** The queue after a step, and the tasks the step has woken, in order. */
  datatype Outcome = Outcome(q: Q, woken: seq<nat>)

  /** How many events a lock has counted. */
  function Positive(lock: int): (n: nat) { if lock > 0 then lock else 0 }

  function Full(q: Q): bool { |q.items| >= q.length }

  function Put(q: Q, item: seq<byte>, front: bool): Q {
    q.(items := if front then [item] + q.items else q.items + [item])
  }

  /** `xTaskRemoveFromEventList` on the tasks waiting to receive, if there are any. */
  function WakeReceiver(q: Q): Outcome {
    if q.waitRecv == [] then Outcome(q, []) else Outcome(q.(waitRecv := q.waitRecv[1..]), [q.waitRecv[0]])
  }

  function WakeSender(q: Q): Outcome {
    if q.waitSend == [] then Outcome(q, []) else Outcome(q.(waitSend := q.waitSend[1..]), [q.waitSend[0]])
  }

  /** A task sends into a queue with room. */
  function Send(q: Q, item: seq<byte>, front: bool): Outcome { WakeReceiver(Put(q, item, front)) }

  /** A task receives from a queue with items. */
  function Receive(q: Q): Outcome
    requires q.items != []
  {
    WakeSender(q.(items := q.items[1..]))
  }

  /** A task looks at the first item: the item stays, so another receiver is woken for it. */
  function Peek(q: Q): Outcome { WakeReceiver(q) }

  /** An interrupt sends: on a locked queue it only counts. */
  function SendFromIsr(q: Q, item: seq<byte>, front: bool): Outcome {
    var q' := Put(q, item, front);
    if q.txLock == -1 then WakeReceiver(q') else Outcome(q'.(txLock := q.txLock + 1), [])
  }

  function ReceiveFromIsr(q: Q): Outcome
    requires q.items != []
  {
    var q' := q.(items := q.items[1..]);
    if q.rxLock == -1 then WakeSender(q') else Outcome(q'.(rxLock := q.rxLock + 1), [])
  }

  function Lock(q: Q): Q {
    q.(rxLock := if q.rxLock == -1 then 0 else q.rxLock, txLock := if q.txLock == -1 then 0 else q.txLock)
  }

  /** Unlocking wakes as many receivers as items were added, if there are that many. */
  function UnlockTx(q: Q): Outcome {
    var n := if q.txLock <= 0 then 0 else if q.txLock <= |q.waitRecv| then q.txLock else |q.waitRecv|;
    Outcome(q.(txLock := -1, waitRecv := q.waitRecv[n..]), q.waitRecv[..n])
  }

  function UnlockRx(q: Q): Outcome {
    var n := if q.rxLock <= 0 then 0 else if q.rxLock <= |q.waitSend| then q.rxLock else |q.waitSend|;
    Outcome(q.(rxLock := -1, waitSend := q.waitSend[n..]), q.waitSend[..n])
  }

  lemma MulLe(a: nat, b: nat, c: nat)
    requires a <= b
    ensures a * c <= b * c
  {
    assert b * c == a * c + (b - a) * c;
  }

  /** Slots of `size` bytes each. */
  lemma SlotFits(k: nat, n: nat, size: nat)
    requires k < n
    ensures k * size + size <= n * size && (k + 1) * size == k * size + size
  {
    MulLe(k + 1, n, size);
  }

  lemma SlotsApart(j: nat, k: nat, size: nat)
    requires j != k
    ensures j * size + size <= k * size || k * size + size <= j * size
  {
    if j < k { SlotFits(j, k, size); } else { SlotFits(k, j, size); }
  }

  /** A slot number counted around the ring. */
  ghost function Around(x: nat, n: nat): (r: nat)
    requires x < 3 * n
    ensures r < n
  {
    if x >= 2 * n then x - 2 * n else if x >= n then x - n else x
  }

  /** The bytes of slot `k`. */
  ghost function Cell(bytes: seq<byte>, k: nat, size: nat): (c: seq<byte>)
  {
    if k * size + size <= |bytes| then bytes[k * size..k * size + size] else []
  }

  /** The items from the one after slot `slot` on. */
  ghost function ItemsOf(bytes: seq<byte>, n: nat, size: nat, slot: nat, count: nat): (items: seq<seq<byte>>)
    requires slot < n && count <= n && |bytes| == n * size + 1
    ensures |items| == count
    ensures forall i :: 0 <= i < count ==> items[i] == Cell(bytes, Around(slot + 1 + i, n), size)
  {
    if count == 0 then []
    else ItemsOf(bytes, n, size, slot, count - 1) + [Cell(bytes, Around(slot + 1 + (count - 1), n), size)]
  }

  ghost predicate SlotOK(k: nat, n: nat, size: nat) {
    k < n && k * size + size <= n * size
  }

  lemma SlotOKIs(k: nat, n: nat, size: nat)
    requires k < n
    ensures SlotOK(k, n, size) && k * size + size <= n * size
  {
    SlotFits(k, n, size);
  }

  /** The bytes after a store into slot `k`. */
  ghost function StoredIn(bytes: seq<byte>, k: nat, n: nat, size: nat, item: seq<byte>): (r: seq<byte>)
    requires k < n && |bytes| == n * size + 1 && |item| == size
    ensures |r| == |bytes|
  {
    SlotFits(k, n, size);
    Splice(bytes, k * size, item)
  }

  /** Storing into one slot leaves the other slots alone. */
  lemma CellStored(bytes: seq<byte>, k: nat, n: nat, size: nat, item: seq<byte>, j: nat)
    requires k < n && j < n && |bytes| == n * size + 1 && |item| == size
    ensures Cell(StoredIn(bytes, k, n, size, item), j, size) == if j == k then item else Cell(bytes, j, size)
  {
    SlotFits(k, n, size);
    SlotFits(j, n, size);
    if j != k { SlotsApart(j, k, size); }
  }

  /** A new item in the free slot behind the last one. */
  lemma StoredBack(bytes: seq<byte>, n: nat, size: nat, slot: nat, count: nat, item: seq<byte>)
    requires slot < n && count < n && |bytes| == n * size + 1 && |item| == size
    ensures && ItemsOf(StoredIn(bytes, Around(slot + 1 + count, n), n, size, item), n, size, slot, count + 1)
            == ItemsOf(bytes, n, size, slot, count) + [item]
  {
    var k := Around(slot + 1 + count, n);
    var bytes' := StoredIn(bytes, k, n, size, item);
    hide StoredIn, Cell, ItemsOf;
    forall i | 0 <= i <= count
      ensures ItemsOf(bytes', n, size, slot, count + 1)[i] == (ItemsOf(bytes, n, size, slot, count) + [item])[i]
    {
      CellStored(bytes, k, n, size, item, Around(slot + 1 + i, n));
    }
  }

  lemma Prepended<T>(after: seq<T>, x: T, before: seq<T>)
    requires |after| == |before| + 1 && forall i :: 0 <= i < |after| ==> after[i] == if i == 0 then x else before[i - 1]
    ensures after == [x] + before
  {
  }

  /** Item `i` after a store in front. */
  lemma FrontItem(bytes: seq<byte>, n: nat, size: nat, slot: nat, count: nat, item: seq<byte>, i: nat)
    requires slot < n && count < n && |bytes| == n * size + 1 && |item| == size && i <= count
    ensures var slot' := if slot == 0 then n - 1 else slot - 1;
            && ItemsOf(StoredIn(bytes, slot, n, size, item), n, size, slot', count + 1)[i]
            == if i == 0 then item else ItemsOf(bytes, n, size, slot, count)[i - 1]
  {
    hide *;
    var slot' := if slot == 0 then n - 1 else slot - 1;
    FrontSlot(slot, n, i);
    CellStored(bytes, slot, n, size, item, Around(slot' + 1 + i, n));
  }

  /** A new item in the slot read last, from where reading then goes back by one slot. */
  lemma StoredFront(bytes: seq<byte>, n: nat, size: nat, slot: nat, count: nat, item: seq<byte>)
    requires slot < n && count < n && |bytes| == n * size + 1 && |item| == size
    ensures var slot' := if slot == 0 then n - 1 else slot - 1;
            && ItemsOf(StoredIn(bytes, slot, n, size, item), n, size, slot', count + 1)
            == [item] + ItemsOf(bytes, n, size, slot, count)
  {
    hide *;
    var slot' := if slot == 0 then n - 1 else slot - 1;
    var before := ItemsOf(bytes, n, size, slot, count);
    var after := ItemsOf(StoredIn(bytes, slot, n, size, item), n, size, slot', count + 1);
    forall i | 0 <= i <= count ensures after[i] == if i == 0 then item else before[i - 1] {
      FrontItem(bytes, n, size, slot, count, item, i);
    }
    Prepended(after, item, before);
  }

  /** Seen from one slot further back, item `i` is where item `i` - 1 was. */
  lemma FrontSlot(slot: nat, n: nat, i: nat)
    requires slot < n && i < n
    ensures var slot' := if slot == 0 then n - 1 else slot - 1;
            && (i > 0 ==> Around(slot' + 1 + i, n) == Around(slot + 1 + (i - 1), n))
            && (Around(slot' + 1 + i, n) == slot <==> i == 0)
  {
  }

  /** The first item, and what is left without it. */
  lemma TakenFirst(bytes: seq<byte>, n: nat, size: nat, slot: nat, count: nat)
    requires slot < n && 0 < count <= n && |bytes| == n * size + 1
    ensures SlotOK(Around(slot + 1, n), n, size)
    ensures ItemsOf(bytes, n, size, slot, count)[0] == Cell(bytes, Around(slot + 1, n), size)
    ensures ItemsOf(bytes, n, size, Around(slot + 1, n), count - 1) == ItemsOf(bytes, n, size, slot, count)[1..]
  {
    SlotOKIs(Around(slot + 1, n), n, size);
    var rest, all := ItemsOf(bytes, n, size, Around(slot + 1, n), count - 1), ItemsOf(bytes, n, size, slot, count);
    hide Cell, ItemsOf;
    forall i | 0 <= i < count - 1 ensures rest[i] == all[1..][i] {
      assert Around(Around(slot + 1, n) + 1 + i, n) == Around(slot + 1 + (i + 1), n);
    }
  }

  class Queue {
    const storage: array<byte>
    const length: nat
    const itemSize: nat
    var writeTo: nat     // offset of the next free slot
    var readFrom: nat    // offset of the slot read last
    var messages: nat
    var waitRecv: seq<nat>
    var waitSend: seq<nat>
    var txLock: int
    var rxLock: int
    ghost var slot: nat  // the number of the slot read last

    /** The offsets are those of slots, the free one where the items end. */
    ghost predicate Valid()
      reads `writeTo, `readFrom, `messages, `slot
    {
      && length > 0 && storage.Length == length * itemSize + 1 && messages <= length && slot < length
      && readFrom == slot * itemSize && writeTo == Around(slot + 1 + messages, length) * itemSize
    }

    ghost function Items(): (items: seq<seq<byte>>)
      requires Valid()
      reads `writeTo, `readFrom, `messages, `slot, storage
      ensures |items| == messages
    {
      ItemsOf(storage[..], length, itemSize, slot, messages)
    }

    ghost function Abs(): Q
      requires Valid()
      reads this, storage
    {
      Q(Items(), length, waitRecv, waitSend, txLock, rxLock)
    }

    constructor (uxQueueLength: nat, uxItemSize: nat)
      requires uxQueueLength > 0
      ensures Valid() && Abs() == Q([], uxQueueLength, [], [], -1, -1) && itemSize == uxItemSize && fresh(storage)
    {
      length, itemSize := uxQueueLength, uxItemSize;
      storage := new byte[uxQueueLength * uxItemSize + 1];
      writeTo, readFrom := 0, (uxQueueLength - 1) * uxItemSize;
      messages, waitRecv, waitSend, txLock, rxLock := 0, [], [], -1, -1;
      slot := uxQueueLength - 1;
    }

    lemma ValidIs()
      requires Valid()
      ensures length > 0 && storage.Length == length * itemSize + 1 && messages <= length && slot < length
      ensures readFrom == slot * itemSize && writeTo == Around(slot + 1 + messages, length) * itemSize
      ensures Items() == ItemsOf(storage[..], length, itemSize, slot, messages)
      ensures Abs() == Q(Items(), length, waitRecv, waitSend, txLock, rxLock)
    {
    }

    lemma ValidIntro()
      requires length > 0 && storage.Length == length * itemSize + 1 && messages <= length && slot < length
      requires readFrom == slot * itemSize && writeTo == Around(slot + 1 + messages, length) * itemSize
      ensures Valid() && Items() == ItemsOf(storage[..], length, itemSize, slot, messages)
    {
    }

    /** Copy an item in at the back or at the front. */
    method CopyDataToQueue(item: seq<byte>, front: bool)
      requires Valid() && messages < length && |item| == itemSize
      modifies `writeTo, `readFrom, `messages, `slot, storage
      ensures Valid() && Items() == Put(old(Abs()), item, front).items
      ensures Items() == if front then [item] + old(Items()) else old(Items()) + [item]
    {
      hide *;
      ValidIs();
      PutIs(Abs(), item, front);
      if itemSize == 0 {
        NoBytes(storage[..], length, slot, messages, item);
        messages := messages + 1;
        ValidIntro();
      } else if !front {
        CopyBack(item);
      } else {
        CopyFront(item);
      }
    }

    method CopyBack(item: seq<byte>)
      requires Valid() && messages < length && |item| == itemSize > 0
      modifies `writeTo, `messages, storage
      ensures Valid() && Items() == old(Items()) + [item]
    {
      hide *;
      ValidIs();
      StoredBack(storage[..], length, itemSize, slot, messages, item);
      StoredInIs(storage[..], Around(slot + 1 + messages, length), length, itemSize, item);
      StepOffset(Around(slot + 1 + messages, length), length, itemSize);
      AroundNext(slot + 1 + messages, length);
      CopyBytes(writeTo, item);
      writeTo := writeTo + itemSize;
      if writeTo >= storage.Length - 1 { writeTo := 0; }
      messages := messages + 1;
      ValidIntro();
    }

    method CopyFront(item: seq<byte>)
      requires Valid() && messages < length && |item| == itemSize > 0
      modifies `readFrom, `messages, `slot, storage
      ensures Valid() && Items() == [item] + old(Items())
    {
      hide *;
      ValidIs();
      StoredFront(storage[..], length, itemSize, slot, messages, item);
      StoredInIs(storage[..], slot, length, itemSize, item);
      BackOffset(slot, length, itemSize);
      AroundBack(slot, messages, length);
      StepOffset(slot, length, itemSize);
      CopyBytes(readFrom, item);
      readFrom := if readFrom < itemSize then storage.Length - 1 - itemSize else readFrom - itemSize;
      slot := if slot == 0 then length - 1 else slot - 1;
      messages := messages + 1;
      ValidIntro();
    }

    /** Copy the first item out; the slot it was in becomes free once the count goes down. */
    method CopyDataFromQueue() returns (item: seq<byte>)
      requires Valid() && messages > 0
      modifies `readFrom, `slot
      ensures slot == Around(old(slot) + 1, length) && readFrom == slot * itemSize
      ensures item == old(Items())[0] && SlotOK(slot, length, itemSize)
    {
      hide *;
      ValidIs();
      TakenFirst(storage[..], length, itemSize, slot, messages);
      StepRead(slot, length, itemSize);
      SlotOKIs(Around(slot + 1, length), length, itemSize);
      readFrom := readFrom + itemSize;
      if readFrom >= storage.Length - 1 { readFrom := 0; }
      slot := Around(slot + 1, length);
      item := storage[readFrom..readFrom + itemSize];
      CellIs(storage[..], slot, itemSize);
    }

    /** Wake the first task that waits to receive, if any. */
    method RemoveReceiver() returns (woken: seq<nat>)
      requires Valid()
      modifies `waitRecv
      ensures Valid() && Outcome(Abs(), woken) == WakeReceiver(old(Abs()))
      ensures woken + waitRecv == old(waitRecv) && |woken| == (if old(waitRecv) == [] then 0 else 1)
    {
      woken := [];
      if waitRecv != [] {
        woken := [waitRecv[0]];
        waitRecv := waitRecv[1..];
      }
    }

    method RemoveSender() returns (woken: seq<nat>)
      requires Valid()
      modifies `waitSend
      ensures Valid() && Outcome(Abs(), woken) == WakeSender(old(Abs()))
      ensures woken + waitSend == old(waitSend) && |woken| == (if old(waitSend) == [] then 0 else 1)
    {
      woken := [];
      if waitSend != [] {
        woken := [waitSend[0]];
        waitSend := waitSend[1..];
      }
    }

    /** The first critical section of `xQueueGenericSend`. */
    method TrySend(item: seq<byte>, front: bool) returns (sent: bool, woken: seq<nat>)
      requires Valid() && |item| == itemSize
      modifies `writeTo, `readFrom, `messages, `slot, `waitRecv, storage
      ensures Valid() && (sent <==> !Full(old(Abs())))
      ensures if sent then Outcome(Abs(), woken) == Send(old(Abs()), item, front)
              else Abs() == old(Abs()) && woken == []
      ensures sent ==>
                && Items() == (if front then [item] + old(Items()) else old(Items()) + [item])
                && woken + waitRecv == old(waitRecv) && |woken| == (if old(waitRecv) == [] then 0 else 1)
    {
      hide ItemsOf, Around, Queue.Valid;
      ValidIs();
      sent, woken := messages < length, [];
      if sent {
        CopyDataToQueue(item, front);
        ValidIs();
        woken := RemoveReceiver();
      }
    }

    /** The first critical section of `xQueueGenericReceive`; a peek puts the read position back. */
    method TryReceive(peek: bool) returns (got: bool, item: seq<byte>, woken: seq<nat>)
      requires Valid()
      modifies `readFrom, `messages, `slot, `waitRecv, `waitSend
      ensures Valid() && (got <==> old(Items()) != []) && (got ==> item == old(Items())[0])
      ensures if got then Outcome(Abs(), woken) == (if peek then Peek(old(Abs())) else Receive(old(Abs())))
              else Abs() == old(Abs()) && woken == []
      ensures got && peek ==>
                && Items() == old(Items()) && woken + waitRecv == old(waitRecv)
                && |woken| == (if old(waitRecv) == [] then 0 else 1) && waitSend == old(waitSend)
      ensures got && !peek ==>
                && [item] + Items() == old(Items()) && woken + waitSend == old(waitSend)
                && |woken| == (if old(waitSend) == [] then 0 else 1) && waitRecv == old(waitRecv)
    {
      hide ItemsOf, Around, Queue.Valid;
      ValidIs();
      got, item, woken := messages > 0, [], [];
      if got {
        if peek {
          var original := readFrom;
          ghost var s := slot;
          item := CopyDataFromQueue();
          readFrom, slot := original, s;
          ValidIntro();
          woken := RemoveReceiver();
        } else {
          item := TakeOut();
          woken := RemoveSender();
        }
      }
    }

    /** Remove the first item. */
    method TakeOut() returns (item: seq<byte>)
      requires Valid() && messages > 0
      modifies `readFrom, `messages, `slot
      ensures Valid() && [item] + Items() == old(Items())
    {
      hide *;
      ValidIs();
      AroundNext(slot, length);
      Shifted(slot, messages, length);
      TakenFirst(storage[..], length, itemSize, slot, messages);
      ghost var all := Items();
      item := CopyDataFromQueue();
      messages := messages - 1;
      ValidIntro();
      assert all == [all[0]] + all[1..];
    }

    method SendFromISR(item: seq<byte>, front: bool) returns (sent: bool, woken: seq<nat>)
      requires Valid() && |item| == itemSize
      modifies `writeTo, `readFrom, `messages, `slot, `waitRecv, `txLock, storage
      ensures Valid() && (sent <==> !Full(old(Abs())))
      ensures if sent then Outcome(Abs(), woken) == SendFromIsr(old(Abs()), item, front)
              else Abs() == old(Abs()) && woken == []
      ensures sent ==>
                && Items() == (if front then [item] + old(Items()) else old(Items()) + [item])
                && woken + waitRecv == old(waitRecv)
                && |woken| == (if old(waitRecv) == [] || old(txLock) != -1 then 0 else 1)
                && txLock == (if old(txLock) == -1 then -1 else old(txLock) + 1)
    {
      hide ItemsOf, Around, Queue.Valid;
      ValidIs();
      sent, woken := messages < length, [];
      if sent {
        CopyDataToQueue(item, front);
        ValidIs();
        if txLock == -1 {
          woken := RemoveReceiver();
        } else {
          txLock := txLock + 1;
          ValidIs();
        }
      }
    }

    method ReceiveFromISR() returns (got: bool, item: seq<byte>, woken: seq<nat>)
      requires Valid()
      modifies `readFrom, `messages, `slot, `waitSend, `rxLock
      ensures Valid() && (got <==> old(Items()) != []) && (got ==> item == old(Items())[0])
      ensures if got then Outcome(Abs(), woken) == ReceiveFromIsr(old(Abs())) else Abs() == old(Abs()) && woken == []
      ensures got ==>
                && [item] + Items() == old(Items()) && woken + waitSend == old(waitSend)
                && |woken| == (if old(waitSend) == [] || old(rxLock) != -1 then 0 else 1)
                && rxLock == (if old(rxLock) == -1 then -1 else old(rxLock) + 1)
    {
      hide ItemsOf, Around, Queue.Valid;
      ValidIs();
      got, item, woken := messages > 0, [], [];
      if got {
        item := TakeOut();
        ValidIs();
        if rxLock == -1 {
          woken := RemoveSender();
        } else {
          rxLock := rxLock + 1;
          ValidIs();
        }
      }
    }

    method LockQueue()
      requires Valid()
      modifies `txLock, `rxLock
      ensures Valid() && Abs() == Lock(old(Abs()))
      ensures txLock == (if old(txLock) == -1 then 0 else old(txLock))
      ensures rxLock == (if old(rxLock) == -1 then 0 else old(rxLock))
    {
      if rxLock == -1 { rxLock := 0; }
      if txLock == -1 { txLock := 0; }
    }

    /** First half of unlocking: wake a receiver for each item that came while locked. */
    method UnlockReceivers() returns (woken: seq<nat>)
      requires Valid()
      modifies `waitRecv, `txLock
      ensures Valid() && Outcome(Abs(), woken) == UnlockTx(old(Abs()))
      ensures woken + waitRecv == old(waitRecv) && txLock == -1
      ensures |woken| <= Positive(old(txLock)) && (|woken| == Positive(old(txLock)) || waitRecv == [])
    {
      hide ItemsOf, Around, Queue.Valid;
      woken := [];
      while txLock > 0 && waitRecv != []
        invariant Valid() && txLock == old(txLock) - |woken| && (|woken| > 0 ==> txLock >= 0)
        invariant |woken| <= |old(waitRecv)| && woken == old(waitRecv)[..|woken|]
        invariant waitRecv == old(waitRecv)[|woken|..]
        decreases txLock
      {
        var head := RemoveReceiver();
        ValidIs();
        woken := woken + head;
        txLock := txLock - 1;
      }
      txLock := -1;
      assert old(waitRecv)[..|woken|] + old(waitRecv)[|woken|..] == old(waitRecv);
      ValidIs();
    }

    /** Second half: wake a sender for each item that went. */
    method UnlockSenders() returns (woken: seq<nat>)
      requires Valid()
      modifies `waitSend, `rxLock
      ensures Valid() && Outcome(Abs(), woken) == UnlockRx(old(Abs()))
      ensures woken + waitSend == old(waitSend) && rxLock == -1
      ensures |woken| <= Positive(old(rxLock)) && (|woken| == Positive(old(rxLock)) || waitSend == [])
    {
      hide ItemsOf, Around, Queue.Valid;
      woken := [];
      while rxLock > 0 && waitSend != []
        invariant Valid() && rxLock == old(rxLock) - |woken| && (|woken| > 0 ==> rxLock >= 0)
        invariant |woken| <= |old(waitSend)| && woken == old(waitSend)[..|woken|]
        invariant waitSend == old(waitSend)[|woken|..]
        decreases rxLock
      {
        var head := RemoveSender();
        ValidIs();
        woken := woken + head;
        rxLock := rxLock - 1;
      }
      rxLock := -1;
      assert old(waitSend)[..|woken|] + old(waitSend)[|woken|..] == old(waitSend);
      ValidIs();
    }

    method CopyBytes(at: nat, item: seq<byte>)
      requires at + |item| <= storage.Length
      modifies storage
      ensures storage[..] == Splice(old(storage[..]), at, item)
    {
      forall i | 0 <= i < |item| { storage[at + i] := item[i]; }
    }
  }

  lemma StoredInIs(bytes: seq<byte>, k: nat, n: nat, size: nat, item: seq<byte>)
    requires k < n && |bytes| == n * size + 1 && |item| == size
    ensures k * size + size <= n * size && StoredIn(bytes, k, n, size, item) == Splice(bytes, k * size, item)
  {
    SlotFits(k, n, size);
  }

  lemma PutIs(q: Q, item: seq<byte>, front: bool)
    ensures Put(q, item, front).items == if front then [item] + q.items else q.items + [item]
  {
  }

  /** Items without bytes, as those of a semaphore, are only counted. */
  lemma NoBytes(bytes: seq<byte>, n: nat, slot: nat, count: nat, item: seq<byte>)
    requires slot < n && count < n && |bytes| == n * 0 + 1 && item == []
    ensures ItemsOf(bytes, n, 0, slot, count + 1) ==
             ItemsOf(bytes, n, 0, slot, count) + [item] == [item] + ItemsOf(bytes, n, 0, slot, count)
    ensures forall k: nat :: k * 0 == 0
  {
  }

  lemma AroundNext(x: nat, n: nat)
    requires x < 2 * n
    ensures Around(Around(x, n) + 1, n) == Around(x + 1, n)
  {
  }

  lemma AroundBack(slot: nat, count: nat, n: nat)
    requires slot < n && count < n
    ensures Around((if slot == 0 then n - 1 else slot - 1) + 1 + (count + 1), n) == Around(slot + 1 + count, n)
  {
  }

  lemma CellIs(bytes: seq<byte>, k: nat, size: nat)
    requires k * size + size <= |bytes|
    ensures Cell(bytes, k, size) == bytes[k * size..k * size + size]
  {
  }

  lemma StepRead(k: nat, n: nat, size: nat)
    requires k < n
    ensures (if k * size + size >= n * size then 0 else k * size + size) == Around(k + 1, n) * size
  {
    if size > 0 { StepOffset(k, n, size); }
  }

  /** The free slot stays where it is when the first item goes. */
  lemma Shifted(slot: nat, count: nat, n: nat)
    requires slot < n && 0 < count <= n
    ensures Around(Around(slot + 1, n) + 1 + (count - 1), n) == Around(slot + 1 + count, n)
  {
  }

  /** One slot on: past the end it is the first one. */
  lemma StepOffset(k: nat, n: nat, size: nat)
    requires k < n && size > 0
    ensures k * size + size <= n * size
    ensures (if k * size + size >= n * size then 0 else k * size + size) == Around(k + 1, n) * size
  {
    SlotFits(k, n, size);
    if k + 1 < n { SlotFits(k + 1, n, size); }
  }

  lemma BackOffset(k: nat, n: nat, size: nat)
    requires k < n && size > 0
    ensures (if k * size < size then n * size - size else k * size - size) == (if k == 0 then n - 1 else k - 1) * size
    ensures k * size < size <==> k == 0
  {
    if k > 0 { SlotFits(k - 1, n, size); } else { SlotFits(n - 1, n, size); }
  }
}
