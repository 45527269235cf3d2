/** The scheduler's lists and tick count as values, and what moving a task between them keeps. */
module KernelSched {
  import opened Seqs
  import opened KernelRing

  /** Where a task's event item is. */
  datatype EventPlace = Nowhere | Waiting(list: nat) | Pending

  /** `value` is the value of the item that is on a ready or delayed list, `eventValue` that of
      the item that is on an event list. */
  datatype Tcb = Tcb(priority: nat, basePriority: nat, value: nat, eventValue: nat, event: EventPlace)

  /** `epoch` counts the overflows of `tick` without bound; `wake` holds unbounded wake times. */
  datatype Sched = Sched(
    tcb: seq<Tcb>, ready: seq<Ring<nat>>, top: nat, delayed: seq<nat>, overflow: seq<nat>,
    tick: nat, epoch: nat, wake: seq<nat>)

  /** Unbounded time. */
  ghost function Now(s: Sched): nat { s.epoch * 0x1_0000_0000 + s.tick }

  // ---------- Lists of tasks ----------

  /** The list without `t`. */
  function Drop(list: seq<nat>, t: nat): seq<nat>
    requires t in list
  {
    list[..IndexOf(list, t)] + list[IndexOf(list, t) + 1..]
  }

  lemma DropIs(list: seq<nat>, t: nat)
    requires t in list && Distinct(list)
    ensures Distinct(Drop(list, t)) && |Drop(list, t)| == |list| - 1
    ensures forall u :: u in Drop(list, t) <==> u in list && u != t
  {
    var i := IndexOf(list, t);
    forall u | u in list && u != t ensures u in Drop(list, t) {
      var j :| 0 <= j < |list| && list[j] == u;
      assert Drop(list, t)[if j < i then j else j - 1] == u;
    }
  }

  ghost predicate InRange(tcb: seq<Tcb>, list: seq<nat>) {
    forall i :: 0 <= i < |list| ==> list[i] < |tcb|
  }

  /** The values of the tasks on a list. */
  function Values(tcb: seq<Tcb>, list: seq<nat>): (v: seq<nat>)
    requires InRange(tcb, list)
    ensures |v| == |list| && forall i :: 0 <= i < |v| ==> v[i] == tcb[list[i]].value
  {
    if list == [] then [] else Values(tcb, list[..|list| - 1]) + [tcb[list[|list| - 1]].value]
  }

  /** A list of tasks in the order of their wake times. */
  ghost predicate ListOK(tcb: seq<Tcb>, list: seq<nat>) {
    Distinct(list) && InRange(tcb, list) && Sorted(Values(tcb, list))
  }

  lemma DropOK(tcb: seq<Tcb>, list: seq<nat>, t: nat)
    requires ListOK(tcb, list) && t in list
    ensures ListOK(tcb, Drop(list, t))
  {
    var i, v := IndexOf(list, t), Values(tcb, list);
    DropIs(list, t);
    RemoveKeepsSorted(v, i);
    hide Values, Sorted;
    assert Values(tcb, Drop(list, t)) == v[..i] + v[i + 1..];
  }

  /** `t` behind the tasks that do not wake later. */
  function Inserted(tcb: seq<Tcb>, list: seq<nat>, t: nat): seq<nat>
    requires t < |tcb| && InRange(tcb, list)
  {
    var p := Position(Values(tcb, list), tcb[t].value);
    list[..p] + [t] + list[p..]
  }

  lemma InsertedOK(tcb: seq<Tcb>, list: seq<nat>, t: nat)
    requires ListOK(tcb, list) && t < |tcb| && t !in list
    ensures ListOK(tcb, Inserted(tcb, list, t))
    ensures forall u :: u in Inserted(tcb, list, t) <==> u in list || u == t
  {
    var v := Values(tcb, list);
    var p := Position(v, tcb[t].value);
    InsertKeepsSorted(v, tcb[t].value);
    hide *;
    InsertedMembers(list, p, t);
    var r := list[..p] + [t] + list[p..];
    InsertedValues(tcb, list, t, p);
    InsertedIs(tcb, list, t);
    ListOKIntro(tcb, r);
  }

  lemma InsertedValues(tcb: seq<Tcb>, list: seq<nat>, t: nat, p: nat)
    requires InRange(tcb, list) && t < |tcb| && p <= |list|
    ensures InRange(tcb, list[..p] + [t] + list[p..])
    ensures Values(tcb, list[..p] + [t] + list[p..]) == Values(tcb, list)[..p] + [tcb[t].value] + Values(tcb, list)[p..]
  {
    hide Values;
    var r, v := list[..p] + [t] + list[p..], Values(tcb, list);
    var w := v[..p] + [tcb[t].value] + v[p..];
    forall i | 0 <= i < |r| ensures r[i] < |tcb| && tcb[r[i]].value == w[i] {
      if i < p { assert r[i] == list[i]; } else if i > p { assert r[i] == list[i - 1]; }
    }
  }

  lemma ListOKIntro(tcb: seq<Tcb>, list: seq<nat>)
    requires Distinct(list) && InRange(tcb, list) && Sorted(Values(tcb, list))
    ensures ListOK(tcb, list)
  {
  }

  lemma InsertedIs(tcb: seq<Tcb>, list: seq<nat>, t: nat)
    requires t < |tcb| && InRange(tcb, list)
    ensures var p := Position(Values(tcb, list), tcb[t].value); Inserted(tcb, list, t) == list[..p] + [t] + list[p..]
  {
  }

  lemma InsertedMembers(list: seq<nat>, p: nat, t: nat)
    requires p <= |list| && Distinct(list) && t !in list
    ensures Distinct(list[..p] + [t] + list[p..])
    ensures forall u :: u in list[..p] + [t] + list[p..] <==> u in list || u == t
  {
    assert list == list[..p] + list[p..];
  }

  /** Values matter on the list only. */
  lemma SameOrder(tcb: seq<Tcb>, tcb': seq<Tcb>, list: seq<nat>)
    requires ListOK(tcb, list) && |tcb'| == |tcb| && forall t :: t in list ==> tcb'[t].value == tcb[t].value
    ensures ListOK(tcb', list)
  {
    assert Values(tcb', list) == Values(tcb, list);
  }

  // ---------- The invariant ----------

  ghost predicate OnReadyList(tcb: seq<Tcb>, ready: seq<Ring<nat>>, t: nat) {
    t < |tcb| && tcb[t].priority < |ready| && t in ready[tcb[t].priority].items
  }

  ghost predicate IsReady(s: Sched, t: nat) { OnReadyList(s.tcb, s.ready, t) }

  ghost predicate IsBlocked(s: Sched, t: nat) { t in s.delayed || t in s.overflow }

  /** A ready list holds tasks of its priority, each once. */
  ghost predicate ReadyListOK(tcb: seq<Tcb>, list: Ring<nat>, p: nat) {
    && list.Valid() && Distinct(list.items)
    && forall i :: 0 <= i < |list.items| ==> list.items[i] < |tcb| && tcb[list.items[i]].priority == p
  }

  /** The lists are well-formed, and nothing is ready above `top`. */
  ghost predicate Lists(s: Sched) {
    && |s.ready| == 7 && s.top < 7 && |s.wake| == |s.tcb| && s.tick < 0x1_0000_0000
    && (forall p :: 0 <= p < 7 ==> ReadyListOK(s.tcb, s.ready[p], p))
    && (forall p :: s.top < p < 7 ==> s.ready[p].items == [])
    && ListOK(s.tcb, s.delayed) && ListOK(s.tcb, s.overflow)
  }

  /** The task wakes in this epoch, and not before now. */
  ghost predicate DelayedAt(s: Sched, t: nat) {
    && t < |s.tcb| && t < |s.wake| && s.tick <= s.tcb[t].value < 0x1_0000_0000
    && s.wake[t] == s.epoch * 0x1_0000_0000 + s.tcb[t].value
  }

  /** The task wakes in the next epoch. */
  ghost predicate OverflowAt(s: Sched, t: nat) {
    && t < |s.tcb| && t < |s.wake| && s.tcb[t].value < 0x1_0000_0000
    && s.wake[t] == (s.epoch + 1) * 0x1_0000_0000 + s.tcb[t].value
  }

  /** Where a task is: on no list if it is `out`, else on the ready list of its priority or on
      the delayed list of the epoch it wakes in. */
  ghost predicate TaskOK(s: Sched, t: nat, out: int) {
    && t < |s.tcb| && s.tcb[t].priority < 7 && s.tcb[t].basePriority < 7
    && if t == out then !IsReady(s, t) && !IsBlocked(s, t)
       else if t in s.delayed then t !in s.overflow && !IsReady(s, t) && DelayedAt(s, t)
       else if t in s.overflow then !IsReady(s, t) && OverflowAt(s, t)
       else IsReady(s, t)
  }

  /** The invariant while task `out` is on no list; -1 if there is no such task. */
  ghost predicate Inv(s: Sched, out: int) {
    Lists(s) && forall t :: 0 <= t < |s.tcb| ==> TaskOK(s, t, out)
  }

  /** Nobody's time has come. */
  ghost predicate NoneDue(s: Sched) {
    forall t :: t in s.delayed && t < |s.tcb| ==> s.tcb[t].value > s.tick
  }

  // ---------- Moving a task ----------

  /** The lists, except that `t` has left the one it was on. */
  ghost predicate OnlyOff(s: Sched, s': Sched, t: nat) {
    && s' == s.(ready := s'.ready, delayed := s'.delayed, overflow := s'.overflow)
    && (forall u :: 0 <= u < |s.tcb| ==> (IsReady(s', u) <==> IsReady(s, u) && u != t))
    && (forall u :: u in s'.delayed <==> u in s.delayed && u != t)
    && (forall u :: u in s'.overflow <==> u in s.overflow && u != t)
  }

  lemma OffTask(s: Sched, s': Sched, t: nat, u: nat)
    requires OnlyOff(s, s', t) && TaskOK(s, u, -1)
    ensures TaskOK(s', u, t)
  {
    hide IsReady;
  }

  lemma OffInv(s: Sched, s': Sched, t: nat)
    requires Inv(s, -1) && OnlyOff(s, s', t) && Lists(s')
    ensures Inv(s', t)
  {
    hide OnlyOff, TaskOK, Lists;
    assert s'.tcb == s.tcb by { OffIs(s, s', t); }
    forall u: nat | u < |s.tcb| ensures TaskOK(s', u, t) { OffTask(s, s', t, u); }
  }

  lemma OffIs(s: Sched, s': Sched, t: nat)
    requires OnlyOff(s, s', t)
    ensures s'.tcb == s.tcb
  {
  }

  /** `vListRemove` of the item that is on a ready or delayed list. */
  function TakenOff(s: Sched, t: nat): Sched
    requires t < |s.tcb|
  {
    if t in s.delayed then s.(delayed := Drop(s.delayed, t))
    else if t in s.overflow then s.(overflow := Drop(s.overflow, t))
    else if s.tcb[t].priority < |s.ready| then s.(ready := TakenReady(s.ready, s.tcb[t].priority, t))
    else s
  }

  function TakenReady(ready: seq<Ring<nat>>, p: nat, t: nat): seq<Ring<nat>>
    requires p < |ready|
  {
    if t in ready[p].items && ready[p].at <= |ready[p].items| then
      ready[p := ready[p].Remove(IndexOf(ready[p].items, t))]
    else ready
  }

  lemma TakeDelayed(s: Sched, t: nat)
    requires Lists(s) && t < |s.tcb| && t in s.delayed && t !in s.overflow && !IsReady(s, t)
    ensures Lists(TakenOff(s, t)) && OnlyOff(s, TakenOff(s, t), t)
  {
    DropIs(s.delayed, t);
    DropOK(s.tcb, s.delayed, t);
    hide ListOK, Drop, ReadyListOK;
  }

  lemma TakeOverflow(s: Sched, t: nat)
    requires Lists(s) && t < |s.tcb| && t !in s.delayed && t in s.overflow && !IsReady(s, t)
    ensures Lists(TakenOff(s, t)) && OnlyOff(s, TakenOff(s, t), t)
  {
    DropIs(s.overflow, t);
    DropOK(s.tcb, s.overflow, t);
    hide ListOK, Drop, ReadyListOK;
  }

  lemma TakeReady(s: Sched, t: nat)
    requires Lists(s) && t < |s.tcb| && !IsBlocked(s, t) && IsReady(s, t)
    ensures Lists(TakenOff(s, t)) && OnlyOff(s, TakenOff(s, t), t)
  {
    var p := s.tcb[t].priority;
    RemoveReady(s.tcb, s.ready[p], p, t);
    hide ListOK, Drop, ReadyListOK, Ring.Remove;
    var s' := TakenOff(s, t);
    assert s'.ready == s.ready[p := s.ready[p].Remove(IndexOf(s.ready[p].items, t))];
    assert s'.ready[p].items == Drop(s.ready[p].items, t);
  }

  lemma RemoveReady(tcb: seq<Tcb>, list: Ring<nat>, p: nat, t: nat)
    requires ReadyListOK(tcb, list, p) && t in list.items
    ensures list.Valid() && ReadyListOK(tcb, list.Remove(IndexOf(list.items, t)), p)
    ensures list.Remove(IndexOf(list.items, t)).items == Drop(list.items, t)
    ensures forall u :: u in Drop(list.items, t) <==> u in list.items && u != t
  {
    DropIs(list.items, t);
  }

  lemma TakeOff(s: Sched, t: nat)
    requires Inv(s, -1) && t < |s.tcb|
    ensures Inv(TakenOff(s, t), t) && OnlyOff(s, TakenOff(s, t), t)
  {
    assert TaskOK(s, t, -1);
    hide Lists, OnlyOff, TakenOff;
    if t in s.delayed { TakeDelayed(s, t); } else if t in s.overflow { TakeOverflow(s, t); } else { TakeReady(s, t); }
    hide *;
    OffInv(s, TakenOff(s, t), t);
  }

  /** The lists, except that `t`, which was on none, is now ready or blocked. */
  ghost predicate OnlyOn(s: Sched, s': Sched, t: nat) {
    && |s'.tcb| == |s.tcb| && s'.tick == s.tick && s'.epoch == s.epoch && |s'.wake| == |s.wake|
    && (forall u :: 0 <= u < |s.tcb| && u != t && u < |s.wake| ==> s'.tcb[u] == s.tcb[u] && s'.wake[u] == s.wake[u])
    && (forall u :: 0 <= u < |s.tcb| && u != t ==> (IsReady(s', u) <==> IsReady(s, u)))
    && (forall u :: u != t ==> (u in s'.delayed <==> u in s.delayed) && (u in s'.overflow <==> u in s.overflow))
  }

  lemma OnTask(s: Sched, s': Sched, t: nat, u: nat)
    requires OnlyOn(s, s', t) && TaskOK(s, u, t) && u != t && u < |s.wake|
    ensures TaskOK(s', u, -1)
  {
    hide IsReady;
  }

  lemma OnInv(s: Sched, s': Sched, t: nat)
    requires Inv(s, t) && OnlyOn(s, s', t) && Lists(s') && TaskOK(s', t, -1)
    ensures Inv(s', -1)
  {
    assert |s'.tcb| == |s.tcb| == |s.wake|;
    hide OnlyOn, TaskOK, Lists;
    forall u: nat | u < |s'.tcb| ensures TaskOK(s', u, -1) { if u != t { OnTask(s, s', t, u); } }
  }

  /** `prvAddTaskToReadyQueue`. */
  function Readied(s: Sched, t: nat): Sched
    requires t < |s.tcb|
  {
    var p := s.tcb[t].priority;
    s.(top := if p > s.top then p else s.top,
       ready := if p < |s.ready| && s.ready[p].at <= |s.ready[p].items| then s.ready[p := s.ready[p].InsertEnd(t)]
           else s.ready)
  }

  lemma PutReady(s: Sched, t: nat)
    requires Inv(s, t) && t < |s.tcb|
    ensures Inv(Readied(s, t), -1) && OnlyOn(s, Readied(s, t), t) && IsReady(Readied(s, t), t)
    ensures Readied(s, t) == s.(top := Readied(s, t).top, ready := Readied(s, t).ready)
  {
    var s', p := Readied(s, t), s.tcb[t].priority;
    assert TaskOK(s, t, t);
    InsertReady(s.tcb, s.ready[p], p, t);
    PutReadyLists(s, t);
    hide Lists, ListOK, ReadyListOK, Ring.InsertEnd, Inv, Readied;
    OnInv(s, s', t);
  }

  lemma PutReadyLists(s: Sched, t: nat)
    requires Lists(s) && TaskOK(s, t, t)
    ensures Lists(Readied(s, t)) && OnlyOn(s, Readied(s, t), t) && TaskOK(Readied(s, t), t, -1)
  {
    var p := s.tcb[t].priority;
    InsertReady(s.tcb, s.ready[p], p, t);
    hide ListOK, ReadyListOK, Ring.InsertEnd;
  }

  lemma InsertReady(tcb: seq<Tcb>, list: Ring<nat>, p: nat, t: nat)
    requires ReadyListOK(tcb, list, p) && t !in list.items && t < |tcb| && tcb[t].priority == p
    ensures list.Valid() && ReadyListOK(tcb, list.InsertEnd(t), p)
    ensures forall u :: u in list.InsertEnd(t).items <==> u in list.items || u == t
  {
    assert list.items == list.items[..list.at] + list.items[list.at..];
  }

  /** The item of a task that is about to sleep gets its wake time, wrapped, as its value. */
  function WakeSet(s: Sched, t: nat, ticks: nat): Sched
    requires t < |s.tcb| && t < |s.wake|
  {
    s.(tcb := s.tcb[t := s.tcb[t].(value := (s.tick + ticks) % 0x1_0000_0000)],
       wake := s.wake[t := s.epoch * 0x1_0000_0000 + s.tick + ticks])
  }

  /** It is inserted in the overflow list if the wake time has wrapped, else in the delayed list. */
  function Queued(s: Sched, t: nat): Sched
    requires t < |s.tcb|
  {
    if s.tcb[t].value < s.tick then s.(overflow := InsertedIn(s.tcb, s.overflow, t))
    else s.(delayed := InsertedIn(s.tcb, s.delayed, t))
  }

  function InsertedIn(tcb: seq<Tcb>, list: seq<nat>, t: nat): seq<nat>
    requires t < |tcb|
  {
    if forall i :: 0 <= i < |list| ==> list[i] < |tcb| then Inserted(tcb, list, t) else list
  }

  function Slept(s: Sched, t: nat, ticks: nat): Sched
    requires t < |s.tcb| && t < |s.wake|
  {
    Queued(WakeSet(s, t, ticks), t)
  }

  lemma PutAsleep(s: Sched, t: nat, ticks: nat)
    requires Inv(s, t) && t < |s.tcb| && 1 <= ticks < 0x1_0000_0000
    ensures t < |s.wake| && Inv(Slept(s, t, ticks), -1) && OnlyOn(s, Slept(s, t, ticks), t)
    ensures IsBlocked(Slept(s, t, ticks), t) && Slept(s, t, ticks).wake[t] == Now(s) + ticks
    ensures NoneDue(s) ==> NoneDue(Slept(s, t, ticks))
  {
    var s1 := WakeSet(s, t, ticks);
    SetWake(s, t, ticks);
    hide *;
    PutInQueue(s1, t);
    SleptIs(s, t, ticks);
  }

  lemma SleptIs(s: Sched, t: nat, ticks: nat)
    requires t < |s.tcb| && t < |s.wake| && OnlyOn(s, WakeSet(s, t, ticks), t)
    requires OnlyOn(WakeSet(s, t, ticks), Queued(WakeSet(s, t, ticks), t), t)
    ensures Slept(s, t, ticks) == Queued(WakeSet(s, t, ticks), t)
    ensures OnlyOn(s, Slept(s, t, ticks), t) && Slept(s, t, ticks).wake[t] == Now(s) + ticks
  {
    hide IsReady;
  }

  lemma SetWake(s: Sched, t: nat, ticks: nat)
    requires Inv(s, t) && t < |s.tcb| && 1 <= ticks < 0x1_0000_0000
    ensures t < |s.wake| && Inv(WakeSet(s, t, ticks), t) && OnlyOn(s, WakeSet(s, t, ticks), t)
    ensures var s' := WakeSet(s, t, ticks);
            if s'.tcb[t].value < s.tick then OverflowAt(s', t) else DelayedAt(s', t) && s'.tcb[t].value > s.tick
    ensures NoneDue(s) ==> NoneDue(WakeSet(s, t, ticks))
  {
    var s' := WakeSet(s, t, ticks);
    assert TaskOK(s, t, t);
    WakeValue(s, t, ticks);
    WakeOthers(s, s', t);
    NewValue(s, s', t);
    hide Lists, WakeSet, IsReady, IsBlocked, OnlyOn;
    forall u: nat | u < |s.tcb| ensures TaskOK(s', u, t) {
      assert TaskOK(s, u, t);
      WakeTask(s, s', t, u);
    }
  }

  /** The wake time in full, from the wrapped value and which list it is in. */
  lemma WakeValue(s: Sched, t: nat, ticks: nat)
    requires t < |s.tcb| && t < |s.wake| && 1 <= ticks < 0x1_0000_0000 && s.tick < 0x1_0000_0000
    ensures var s' := WakeSet(s, t, ticks);
            if s'.tcb[t].value < s.tick then OverflowAt(s', t) else DelayedAt(s', t) && s'.tcb[t].value > s.tick
  {
    var v := (s.tick + ticks) % 0x1_0000_0000;
    assert s.tick + ticks == v || s.tick + ticks == v + 0x1_0000_0000;
  }

  lemma WakeOthers(s: Sched, s': Sched, t: nat)
    requires t < |s.tcb| == |s'.tcb| == |s.wake| == |s'.wake|
    requires s' == s.(tcb := s.tcb[t := s.tcb[t].(value := s'.tcb[t].value)], wake := s.wake[t := s'.wake[t]])
    requires t !in s.delayed
    ensures OnlyOn(s, s', t) && (NoneDue(s) ==> NoneDue(s'))
  {
  }

  lemma WakeTask(s: Sched, s': Sched, t: nat, u: nat)
    requires OnlyOn(s, s', t) && TaskOK(s, u, t) && t < |s.tcb| == |s.wake| && s'.delayed == s.delayed
    requires s'.overflow == s.overflow
    requires s'.ready == s.ready && s'.tcb[t].priority == s.tcb[t].priority
    requires s'.tcb[t].basePriority == s.tcb[t].basePriority
    ensures TaskOK(s', u, t)
  {
  }

  lemma PutInQueue(s: Sched, t: nat)
    requires Inv(s, t) && t < |s.tcb|
    requires if s.tcb[t].value < s.tick then OverflowAt(s, t) else DelayedAt(s, t) && s.tcb[t].value > s.tick
    ensures Inv(Queued(s, t), -1) && OnlyOn(s, Queued(s, t), t) && IsBlocked(Queued(s, t), t)
    ensures NoneDue(s) ==> NoneDue(Queued(s, t))
  {
    assert TaskOK(s, t, t);
    QueueLists(s, t);
    hide Lists, OnlyOn, Inv, TaskOK, Queued;
    OnInv(s, Queued(s, t), t);
  }

  lemma QueueLists(s: Sched, t: nat)
    requires Lists(s) && t < |s.tcb| && TaskOK(s, t, t)
    requires if s.tcb[t].value < s.tick then OverflowAt(s, t) else DelayedAt(s, t) && s.tcb[t].value > s.tick
    ensures Lists(Queued(s, t)) && OnlyOn(s, Queued(s, t), t) && TaskOK(Queued(s, t), t, -1)
    ensures IsBlocked(Queued(s, t), t)
    ensures NoneDue(s) ==> NoneDue(Queued(s, t))
  {
    if s.tcb[t].value < s.tick { QueueOverflow(s, t); } else { QueueDelayed(s, t); }
  }

  lemma QueueOverflow(s: Sched, t: nat)
    requires Lists(s) && t < |s.tcb| && TaskOK(s, t, t) && s.tcb[t].value < s.tick && OverflowAt(s, t)
    ensures Lists(Queued(s, t)) && OnlyOn(s, Queued(s, t), t) && TaskOK(Queued(s, t), t, -1)
    ensures IsBlocked(Queued(s, t), t)
    ensures NoneDue(s) ==> NoneDue(Queued(s, t))
  {
    InsertedInOK(s.tcb, s.overflow, t);
    hide ListOK, ReadyListOK, InsertedIn, OnReadyList, TaskOK, OnlyOn;
    assert Lists(Queued(s, t));
    hide Lists;
    MoreBlocked(s, Queued(s, t), t);
  }

  lemma QueueDelayed(s: Sched, t: nat)
    requires Lists(s) && t < |s.tcb| && TaskOK(s, t, t) && s.tcb[t].value > s.tick && DelayedAt(s, t)
    ensures Lists(Queued(s, t)) && OnlyOn(s, Queued(s, t), t) && TaskOK(Queued(s, t), t, -1)
    ensures IsBlocked(Queued(s, t), t)
    ensures NoneDue(s) ==> NoneDue(Queued(s, t))
  {
    InsertedInOK(s.tcb, s.delayed, t);
    hide ListOK, ReadyListOK, InsertedIn, OnReadyList, TaskOK, OnlyOn;
    assert Lists(Queued(s, t));
    hide Lists;
    MoreBlocked(s, Queued(s, t), t);
  }

  lemma MoreBlocked(s: Sched, s': Sched, t: nat)
    requires t < |s.tcb| && TaskOK(s, t, t) && s' == s.(delayed := s'.delayed, overflow := s'.overflow)
    requires || (&& s'.delayed == s.delayed && OverflowAt(s', t)
                 && forall u :: u in s'.overflow <==> u in s.overflow || u == t)
             || (&& s'.overflow == s.overflow && DelayedAt(s', t)
                 && forall u :: u in s'.delayed <==> u in s.delayed || u == t)
    ensures OnlyOn(s, s', t) && TaskOK(s', t, -1)
  {
    hide OnReadyList;
  }

  lemma InsertedInOK(tcb: seq<Tcb>, list: seq<nat>, t: nat)
    requires ListOK(tcb, list) && t < |tcb| && t !in list
    ensures ListOK(tcb, InsertedIn(tcb, list, t)) && InsertedIn(tcb, list, t) == Inserted(tcb, list, t)
    ensures forall u :: u in InsertedIn(tcb, list, t) <==> u in list || u == t
  {
    InsertedOK(tcb, list, t);
    hide Inserted;
  }

  /** The value of a task that is on no list does not matter. */
  lemma NewValue(s: Sched, s': Sched, t: nat)
    requires Lists(s) && t < |s.tcb| && TaskOK(s, t, t) && |s'.wake| == |s'.tcb| == |s.tcb|
    requires s' == s.(tcb := s.tcb[t := s'.tcb[t]], wake := s'.wake)
    ensures Lists(s')
  {
    SameOrder(s.tcb, s'.tcb, s.delayed);
    SameOrder(s.tcb, s'.tcb, s.overflow);
    hide ListOK;
    forall p | 0 <= p < 7 ensures ReadyListOK(s'.tcb, s'.ready[p], p) {
      assert t !in s.ready[p].items by { if t in s.ready[p].items { ReadyAt(s, p, t); } }
    }
  }

  lemma ReadyAt(s: Sched, p: nat, t: nat)
    requires p < |s.ready| && ReadyListOK(s.tcb, s.ready[p], p) && t in s.ready[p].items
    ensures IsReady(s, t) && s.tcb[t].priority == p
  {
  }

  // ---------- Priorities ----------

  /** The fields of a task that the ready and delayed lists do not depend on. */
  ghost predicate SameGeneric(s: Sched, s': Sched) {
    && s' == s.(tcb := s'.tcb) && |s'.tcb| == |s.tcb|
    && forall u :: 0 <= u < |s.tcb| ==>
         && s'.tcb[u].priority == s.tcb[u].priority && s'.tcb[u].value == s.tcb[u].value
         && (s.tcb[u].basePriority < 7 ==> s'.tcb[u].basePriority < 7)
  }

  lemma GenericTask(s: Sched, s': Sched, u: nat, out: int)
    requires TaskOK(s, u, out) && SameGeneric(s, s')
    ensures TaskOK(s', u, out)
  {
  }

  lemma GenericOnly(s: Sched, s': Sched, out: int)
    requires Inv(s, out) && SameGeneric(s, s')
    ensures Inv(s', out) && (NoneDue(s) ==> NoneDue(s'))
    ensures forall u :: 0 <= u < |s.tcb| ==> (IsReady(s', u) <==> IsReady(s, u))
  {
    SameOrder(s.tcb, s'.tcb, s.delayed);
    SameOrder(s.tcb, s'.tcb, s.overflow);
    hide ListOK;
    forall p | 0 <= p < 7 ensures ReadyListOK(s'.tcb, s'.ready[p], p) {}
    assert Lists(s');
    hide Lists;
    forall u: nat | u < |s.tcb| ensures TaskOK(s', u, out) {
      assert TaskOK(s, u, out);
      GenericTask(s, s', u, out);
    }
  }

  /** A task that is not ready can change its priority in place. */
  lemma Reprioritised(s: Sched, s': Sched, t: nat, out: int)
    requires Inv(s, out) && t < |s.tcb| && (out == t || (out == -1 && IsBlocked(s, t)))
    requires |s'.tcb| == |s.tcb| && s' == s.(tcb := s.tcb[t := s'.tcb[t]])
    requires s'.tcb[t].priority < 7 && s'.tcb[t].basePriority < 7 && s'.tcb[t].value == s.tcb[t].value
    ensures Inv(s', out) && (NoneDue(s) ==> NoneDue(s'))
    ensures forall u :: 0 <= u < |s.tcb| ==> (IsReady(s', u) <==> IsReady(s, u))
  {
    assert TaskOK(s, t, out);
    NotReady(s, t);
    ReprioritisedLists(s, s', t);
    hide Lists;
    forall u: nat | u < |s.tcb| ensures TaskOK(s', u, out) { assert TaskOK(s, u, out); }
  }

  lemma ReprioritisedLists(s: Sched, s': Sched, t: nat)
    requires Lists(s) && t < |s.tcb| && (forall p :: 0 <= p < 7 ==> t !in s.ready[p].items)
    requires |s'.tcb| == |s.tcb| && s' == s.(tcb := s.tcb[t := s'.tcb[t]]) && s'.tcb[t].value == s.tcb[t].value
    ensures Lists(s')
  {
    SameOrder(s.tcb, s'.tcb, s.delayed);
    SameOrder(s.tcb, s'.tcb, s.overflow);
    hide ListOK;
    forall p | 0 <= p < 7 ensures ReadyListOK(s'.tcb, s'.ready[p], p) {}
  }

  lemma NotReady(s: Sched, t: nat)
    requires Lists(s) && t < |s.tcb| && !IsReady(s, t)
    ensures forall p :: 0 <= p < 7 ==> t !in s.ready[p].items
  {
    forall p | 0 <= p < 7 ensures t !in s.ready[p].items { if t in s.ready[p].items { ReadyAt(s, p, t); } }
  }

  // ---------- Turns ----------

  /** The tasks of ready list `q` in the order in which their turns come. */
  ghost function Round(s: Sched, q: nat): seq<nat> {
    if q < |s.ready| && s.ready[q].Valid() then FromIndex(s.ready[q]) else []
  }

  /** `t` has left the line, the others keep their order. */
  ghost predicate Without(line: seq<nat>, line': seq<nat>, t: nat) {
    t in line && line' == line[..IndexOf(line, t)] + line[IndexOf(line, t) + 1..]
  }

  /** `t` has left the line if it was there. */
  ghost predicate Shed(line: seq<nat>, line': seq<nat>, t: nat) {
    if t in line then Without(line, line', t) else line' == line
  }

  /** Every round is as it was. */
  ghost predicate RoundsSame(s: Sched, s': Sched) {
    |s'.ready| == |s.ready| && forall q :: 0 <= q < |s.ready| ==> Round(s', q) == Round(s, q)
  }

  /** `t` comes last in round `p`, all other rounds are as they were. */
  ghost predicate RoundsOn(s: Sched, s': Sched, p: nat, t: nat) {
    && |s'.ready| == |s.ready|
    && forall q :: 0 <= q < |s.ready| ==> Round(s', q) == if q == p then Round(s, q) + [t] else Round(s, q)
  }

  /** `t` has left round `p`, all other rounds are as they were. */
  ghost predicate RoundsOff(s: Sched, s': Sched, p: nat, t: nat) {
    && |s'.ready| == |s.ready|
    && forall q :: 0 <= q < |s.ready| ==>
         if q == p then Without(Round(s, q), Round(s', q), t) else Round(s', q) == Round(s, q)
  }

  /** `t` has left the round it was in, if any. */
  ghost predicate LeftRounds(s: Sched, s': Sched, t: nat) {
    if IsReady(s, t) then RoundsOff(s, s', s.tcb[t].priority, t) else RoundsSame(s, s')
  }

  /** `t` has left round `p` and comes last in round `p'`. */
  ghost predicate RoundsMoved(s: Sched, s': Sched, p: nat, p': nat, t: nat) {
    && |s'.ready| == |s.ready|
    && forall q :: 0 <= q < |s.ready| ==>
         if q == p' then Round(s', q) == Round(s, q) + [t]
         else if q == p then Without(Round(s, q), Round(s', q), t) else Round(s', q) == Round(s, q)
  }

  /** New tasks come last in their rounds. */
  ghost predicate RoundsGrow(s: Sched, s': Sched) {
    |s'.ready| == |s.ready| && forall q :: 0 <= q < |s.ready| ==> Round(s, q) <= Round(s', q)
  }

  /** The first task of round `p` is now the last. */
  ghost predicate RoundsTurn(s: Sched, s': Sched, p: nat) {
    && |s'.ready| == |s.ready| && Round(s, p) != []
    && forall q :: 0 <= q < |s.ready| ==>
         Round(s', q) == if q == p then Round(s, q)[1..] + Round(s, q)[..1] else Round(s, q)
  }

  /** The tasks on the list that have priority `q`, in order. */
  ghost function OfPriority(tcb: seq<Tcb>, list: seq<nat>, q: nat): seq<nat> {
    if list == [] then []
    else
      var t := list[|list| - 1];
      OfPriority(tcb, list[..|list| - 1], q) + if t < |tcb| && tcb[t].priority == q then [t] else []
  }

  /** The tasks on the list come last in their rounds, in this order. */
  ghost predicate RoundsGain(s: Sched, s': Sched, list: seq<nat>) {
    && |s'.ready| == |s.ready|
    && forall q :: 0 <= q < |s.ready| ==> Round(s', q) == Round(s, q) + OfPriority(s.tcb, list, q)
  }

  lemma GainNone(s: Sched)
    ensures RoundsGain(s, s, [])
  {
  }

  lemma GainNext(s: Sched, s1: Sched, s2: Sched, list: seq<nat>, t: nat)
    requires RoundsGain(s, s1, list) && t < |s.tcb| == |s1.tcb| && s1.tcb[t].priority == s.tcb[t].priority
    requires RoundsOn(s1, s2, s1.tcb[t].priority, t)
    ensures RoundsGain(s, s2, list + [t])
  {
    hide Round;
    forall q | 0 <= q < |s.ready| ensures Round(s2, q) == Round(s, q) + OfPriority(s.tcb, list + [t], q) {
      assert (list + [t])[..|list|] == list;
    }
  }

  lemma GainGrows(s: Sched, s': Sched, list: seq<nat>)
    requires RoundsGain(s, s', list)
    ensures RoundsGrow(s, s')
  {
    hide Round, OfPriority;
  }

  lemma GrowSame(s: Sched)
    ensures RoundsGrow(s, s)
  {
    hide Round;
  }

  lemma GrowTrans(a: Sched, b: Sched, c: Sched)
    requires RoundsGrow(a, b) && RoundsGrow(b, c)
    ensures RoundsGrow(a, c)
  {
    hide Round;
    forall q | 0 <= q < |a.ready| ensures Round(a, q) <= Round(c, q) {
      assert Round(a, q) <= Round(b, q) && Round(b, q) <= Round(c, q);
    }
  }

  /** The round of its priority is where a ready task is, once. */
  lemma RoundHas(s: Sched, t: nat)
    requires Lists(s) && t < |s.tcb| && s.tcb[t].priority < 7
    ensures IsReady(s, t) <==> t in Round(s, s.tcb[t].priority)
    ensures Distinct(Round(s, s.tcb[t].priority))
  {
    var p := s.tcb[t].priority;
    assert ReadyListOK(s.tcb, s.ready[p], p);
    FromIndexHas(s.ready[p], t);
    FromIndexDistinct(s.ready[p]);
  }

  lemma RoundIs(s: Sched, q: nat)
    requires q < |s.ready| && s.ready[q].Valid()
    ensures Round(s, q) == FromIndex(s.ready[q])
  {
  }

  lemma RoundOf(s: Sched, s': Sched, q: nat)
    requires q < |s.ready| && |s'.ready| == |s.ready| && s'.ready[q] == s.ready[q]
    ensures Round(s', q) == Round(s, q)
  {
  }

  lemma OffIndex(line: seq<nat>, t: nat, i: nat)
    requires Distinct(line) && i < |line| && line[i] == t
    ensures Without(line, line[..i] + line[i + 1..], t)
  {
  }

  lemma TakeOffRounds(s: Sched, t: nat)
    requires Inv(s, -1) && t < |s.tcb|
    ensures LeftRounds(s, TakenOff(s, t), t)
  {
    var s', p := TakenOff(s, t), s.tcb[t].priority;
    assert TaskOK(s, t, -1);
    if IsReady(s, t) {
      assert ReadyListOK(s.tcb, s.ready[p], p);
      var list := s.ready[p];
      var i := IndexOf(list.items, t);
      RemoveFrom(list, i);
      FromIndexDistinct(list);
      OffIndex(FromIndex(list), t, list.Turn(i) - 1);
      assert s'.ready == s.ready[p := list.Remove(i)];
      hide Inv, TaskOK, TakenOff, ReadyListOK, FromIndex, Ring.Remove, Ring.Turn;
      RoundIs(s, p);
      RoundIs(s', p);
      forall q | 0 <= q < |s.ready| && q != p ensures Round(s', q) == Round(s, q) { RoundOf(s, s', q); }
    }
  }

  lemma OffShed(s: Sched, t: nat)
    requires Inv(s, -1) && t < |s.tcb|
    ensures Shed(s.delayed, TakenOff(s, t).delayed, t) && Shed(s.overflow, TakenOff(s, t).overflow, t)
  {
    assert TaskOK(s, t, -1);
  }

  lemma BlockedNotReady(s: Sched, t: nat)
    requires Inv(s, -1) && IsBlocked(s, t)
    ensures t < |s.tcb| && !IsReady(s, t)
  {
    assert InRange(s.tcb, s.delayed) && InRange(s.tcb, s.overflow);
    assert TaskOK(s, t, -1);
  }

  lemma PutReadyRounds(s: Sched, t: nat)
    requires Inv(s, t) && t < |s.tcb|
    ensures RoundsOn(s, Readied(s, t), s.tcb[t].priority, t)
  {
    var s', p := Readied(s, t), s.tcb[t].priority;
    assert TaskOK(s, t, t);
    assert ReadyListOK(s.tcb, s.ready[p], p);
    InsertEndIsLast(s.ready[p], t);
    assert s'.ready == s.ready[p := s.ready[p].InsertEnd(t)];
    hide Inv, TaskOK, Readied, ReadyListOK, FromIndex, Ring.InsertEnd, Visited;
    RoundIs(s, p);
    RoundIs(s', p);
    forall q | 0 <= q < |s.ready| && q != p ensures Round(s', q) == Round(s, q) { RoundOf(s, s', q); }
  }

  // ---------- Ticks ----------

  /** The tick count goes up; when it wraps, the delayed lists change places. */
  function Ticked(s: Sched): Sched
  {
    if s.tick + 1 < 0x1_0000_0000 then s.(tick := s.tick + 1)
    else s.(tick := 0, epoch := s.epoch + 1, delayed := s.overflow, overflow := s.delayed)
  }

  /** At the wrap nobody is left in the delayed list. */
  lemma TickStep(s: Sched)
    requires Inv(s, -1) && NoneDue(s)
    ensures Inv(Ticked(s), -1) && Now(Ticked(s)) == Now(s) + 1
    ensures Ticked(s).tick == 0 ==> s.delayed == []
    ensures forall u :: 0 <= u < |s.tcb| ==> (IsReady(Ticked(s), u) <==> IsReady(s, u))
  {
    var s' := Ticked(s);
    if s.delayed != [] {
      var u := s.delayed[0];
      assert u in s.delayed && InRange(s.tcb, s.delayed);
      assert TaskOK(s, u, -1);
    }
    hide ListOK, ReadyListOK, OnReadyList;
    forall u: nat | u < |s.tcb| ensures TaskOK(s', u, -1) { assert TaskOK(s, u, -1); }
  }

  /** The delayed list from its head on: if the head is not due, nobody is. */
  lemma HeadFirst(s: Sched)
    requires Inv(s, -1)
    ensures s.delayed == [] ==> NoneDue(s)
    ensures s.delayed != [] ==> s.delayed[0] < |s.tcb| && s.delayed[0] in s.delayed
    ensures s.delayed != [] && s.tick < s.tcb[s.delayed[0]].value ==> NoneDue(s)
    ensures s.delayed != [] && s.tick >= s.tcb[s.delayed[0]].value ==> s.wake[s.delayed[0]] == Now(s)
  {
    if s.delayed != [] {
      assert InRange(s.tcb, s.delayed);
      assert TaskOK(s, s.delayed[0], -1);
      var v := Values(s.tcb, s.delayed);
      if s.tick < s.tcb[s.delayed[0]].value {
        forall t | t in s.delayed ensures s.tcb[t].value > s.tick {
          var i :| 0 <= i < |s.delayed| && s.delayed[i] == t;
          assert v[0] <= v[i];
        }
      }
    }
  }

  /** A task sleeps exactly until its wake time has come. */
  lemma SleepsUntil(s: Sched, t: nat)
    requires Inv(s, -1) && NoneDue(s) && t < |s.tcb|
    ensures t < |s.wake| && (IsBlocked(s, t) ==> s.wake[t] > Now(s)) && (IsReady(s, t) <==> !IsBlocked(s, t))
  {
    assert TaskOK(s, t, -1);
    hide IsReady;
  }

  /** From `s` to `s'` some tasks were readied, all of them due. */
  ghost predicate Woken(s: Sched, s': Sched) {
    && |s'.tcb| == |s.tcb| && s'.wake == s.wake && s'.tick == s.tick && s'.epoch == s.epoch && |s.wake| == |s.tcb|
    && (forall u :: 0 <= u < |s.tcb| && IsReady(s, u) ==> IsReady(s', u))
    && (forall u :: 0 <= u < |s.tcb| && IsReady(s', u) ==> IsReady(s, u) || s.wake[u] == Now(s))
    && (forall u :: 0 <= u < |s.tcb| ==> Eased(s.tcb[u], s'.tcb[u]))
  }

  /** The first `n` tasks of the delayed list were readied, in order. */
  ghost predicate HeadsWoken(s: Sched, s': Sched, n: nat) {
    && n <= |s.delayed| && s'.delayed == s.delayed[n..] && RoundsGain(s, s', s.delayed[..n])
    && forall i :: 0 <= i < n ==> s.delayed[i] < |s.tcb| && s.tcb[s.delayed[i]].value <= s.tick
  }

  /** The task is as it was, or waits for no event any more. */
  ghost predicate Eased(a: Tcb, b: Tcb) {
    b == a || b == a.(event := Nowhere)
  }

  lemma WokenSame(s: Sched)
    requires |s.wake| == |s.tcb|
    ensures Woken(s, s) && HeadsWoken(s, s, 0)
  {
    hide OnReadyList, RoundsGain;
    GainNone(s);
    assert s.delayed[..0] == [];
  }

  // ---------- Event lists ----------

  /** The event lists, and the tasks whose event came while the scheduler was suspended. */
  datatype Waits = Waits(events: seq<seq<nat>>, pending: Ring<nat>)

  ghost predicate EventListOK(tcb: seq<Tcb>, list: seq<nat>, place: EventPlace) {
    Distinct(list) && forall i :: 0 <= i < |list| ==> list[i] < |tcb| && tcb[list[i]].event == place
  }

  ghost predicate EventAt(tcb: seq<Tcb>, w: Waits, t: nat) {
    && t < |tcb|
    && match tcb[t].event
       case Nowhere => true
       case Waiting(e) => e < |w.events| && t in w.events[e]
       case Pending => t in w.pending.items
  }

  /** Each task's event item is where the task says it is, and nowhere else. */
  ghost predicate EventsOK(tcb: seq<Tcb>, w: Waits) {
    && w.pending.at == |w.pending.items| && EventListOK(tcb, w.pending.items, Pending)
    && (forall e :: 0 <= e < |w.events| ==> EventListOK(tcb, w.events[e], Waiting(e)))
    && (forall t :: 0 <= t < |tcb| ==> EventAt(tcb, w, t))
  }

  /** A task that waits for an event is blocked, unless it is just being moved. */
  ghost predicate EventBlocked(s: Sched, out: int) {
    forall t :: 0 <= t < |s.tcb| && t != out && s.tcb[t].event != Nowhere ==> IsBlocked(s, t)
  }

  /** `vListRemove` of the event item. */
  function Left(tcb: seq<Tcb>, w: Waits, t: nat): Waits
    requires t < |tcb|
  {
    match tcb[t].event
    case Nowhere => w
    case Waiting(e) =>
      if e < |w.events| && t in w.events[e] then w.(events := w.events[e := Drop(w.events[e], t)]) else w
    case Pending =>
      if t in w.pending.items && w.pending.at <= |w.pending.items|
      then w.(pending := w.pending.Remove(IndexOf(w.pending.items, t))) else w
  }

  lemma LeaveKeeps(tcb: seq<Tcb>, w: Waits, t: nat)
    requires EventsOK(tcb, w) && t < |tcb|
    ensures EventsOK(tcb[t := tcb[t].(event := Nowhere)], Left(tcb, w, t)) && |Left(tcb, w, t).events| == |w.events|
  {
    var tcb', w' := tcb[t := tcb[t].(event := Nowhere)], Left(tcb, w, t);
    assert EventAt(tcb, w, t);
    if tcb[t].event.Waiting? { DropIs(w.events[tcb[t].event.list], t); }
    if tcb[t].event.Pending? { DropIs(w.pending.items, t); assert w'.pending.items == Drop(w.pending.items, t); }
    hide Drop, Distinct;
    forall e | 0 <= e < |w'.events| ensures EventListOK(tcb', w'.events[e], Waiting(e)) {
      LeftList(tcb, tcb', w.events[e], w'.events[e], Waiting(e), t);
    }
    LeftList(tcb, tcb', w.pending.items, w'.pending.items, Pending, t);
    hide EventListOK;
    forall u: nat | u < |tcb| ensures EventAt(tcb', w', u) { assert EventAt(tcb, w, u); }
  }

  lemma LeftList(tcb: seq<Tcb>, tcb': seq<Tcb>, list: seq<nat>, list': seq<nat>, place: EventPlace, t: nat)
    requires EventListOK(tcb, list, place) && t < |tcb| && tcb' == tcb[t := tcb[t].(event := Nowhere)]
    requires Distinct(list') && forall u :: u in list' <==> u in list && (u != t || tcb[t].event != place)
    requires place != Nowhere
    ensures EventListOK(tcb', list', place)
  {
    forall i | 0 <= i < |list'| ensures list'[i] < |tcb'| && tcb'[list'[i]].event == place {
      assert list'[i] in list';
    }
  }

  function EventValues(tcb: seq<Tcb>, list: seq<nat>): (v: seq<nat>)
    ensures |v| == |list| && forall i :: 0 <= i < |v| && list[i] < |tcb| ==> v[i] == tcb[list[i]].eventValue
  {
    if list == [] then []
    else EventValues(tcb, list[..|list| - 1]) + [if list[|list| - 1] < |tcb| then tcb[list[|list| - 1]].eventValue
                                                 else 0]
  }

  /** `vListInsert` of the event item of `t` into event list `e`. */
  function Joined(tcb: seq<Tcb>, w: Waits, e: nat, t: nat): Waits
    requires t < |tcb| && e < |w.events|
  {
    var list := w.events[e];
    var p := Position(EventValues(tcb, list), tcb[t].eventValue);
    w.(events := w.events[e := list[..p] + [t] + list[p..]])
  }

  lemma JoinKeeps(tcb: seq<Tcb>, w: Waits, e: nat, t: nat)
    requires EventsOK(tcb, w) && t < |tcb| && e < |w.events| && tcb[t].event == Nowhere
    ensures EventsOK(tcb[t := tcb[t].(event := Waiting(e))], Joined(tcb, w, e, t))
  {
    var tcb', w', list := tcb[t := tcb[t].(event := Waiting(e))], Joined(tcb, w, e, t), w.events[e];
    assert t !in list && t !in w.pending.items;
    InsertedMembers(list, Position(EventValues(tcb, list), tcb[t].eventValue), t);
    forall k | 0 <= k < |w'.events| ensures EventListOK(tcb', w'.events[k], Waiting(k)) {
      assert t !in w.events[k];
    }
    hide EventListOK, Joined;
    forall u: nat | u < |tcb| ensures EventAt(tcb', w', u) { assert EventAt(tcb, w, u); }
  }

  /** The event item of a waiting task moves to the pending list. */
  lemma PendKeeps(tcb: seq<Tcb>, w: Waits, t: nat)
    requires EventsOK(tcb, w) && t < |tcb| && tcb[t].event == Nowhere
    ensures w.pending.Valid() && w.pending.InsertEnd(t).items == w.pending.items + [t]
    ensures EventsOK(tcb[t := tcb[t].(event := Pending)], w.(pending := w.pending.InsertEnd(t)))
  {
    var tcb', w' := tcb[t := tcb[t].(event := Pending)], w.(pending := w.pending.InsertEnd(t));
    var list, p := w.pending.items, w.pending.at;
    assert t !in list;
    InsertedMembers(list, p, t);
    forall k | 0 <= k < |w'.events| ensures EventListOK(tcb', w'.events[k], Waiting(k)) {
      assert t !in w.events[k];
    }
    assert EventListOK(tcb', w'.pending.items, Pending);
    hide EventListOK;
    forall u: nat | u < |tcb| ensures EventAt(tcb', w', u) { assert EventAt(tcb, w, u); }
  }

  /** Priorities and wake times are no concern of the event lists. */
  lemma EventsSame(tcb: seq<Tcb>, tcb': seq<Tcb>, w: Waits)
    requires EventsOK(tcb, w) && |tcb'| == |tcb| && forall u :: 0 <= u < |tcb| ==> tcb'[u].event == tcb[u].event
    ensures EventsOK(tcb', w)
  {
    forall u: nat | u < |tcb| ensures EventAt(tcb', w, u) { assert EventAt(tcb, w, u); }
  }

  // ---------- Waking one task ----------

  lemma Whereabouts(s: Sched, t: nat)
    requires Inv(s, -1) && t < |s.tcb|
    ensures !IsBlocked(s, t) ==> |s.ready| == 7 && s.tcb[t].priority < 7 && t in s.ready[s.tcb[t].priority].items
    ensures !IsBlocked(s, t) ==> s.ready[s.tcb[t].priority].at <= |s.ready[s.tcb[t].priority].items|
  {
    assert TaskOK(s, t, -1);
  }

  lemma ReadyListOf(s: Sched, t: nat)
    requires Inv(s, t) && t < |s.tcb|
    ensures |s.ready| == 7 && s.tcb[t].priority < 7
    ensures s.ready[s.tcb[t].priority].at <= |s.ready[s.tcb[t].priority].items|
  {
    assert TaskOK(s, t, t);
    assert ReadyListOK(s.tcb, s.ready[s.tcb[t].priority], s.tcb[t].priority);
  }

  lemma EventPlaceOf(tcb: seq<Tcb>, w: Waits, t: nat)
    requires EventsOK(tcb, w) && t < |tcb|
    ensures EventAt(tcb, w, t) && w.pending.at <= |w.pending.items|
  {
  }

  /** Only `t` has moved: it was on no ready list, and is now on the one of its priority. */
  ghost predicate JustWoken(s: Sched, s': Sched, t: nat) {
    && t < |s.tcb| && s'.tcb == s.tcb[t := s.tcb[t].(event := Nowhere)]
    && s'.tick == s.tick && s'.epoch == s.epoch && s'.wake == s.wake && IsReady(s', t)
    && (forall u :: 0 <= u < |s.tcb| && u != t ==> (IsReady(s', u) <==> IsReady(s, u)))
    && (forall u :: u in s'.delayed <==> u in s.delayed && u != t)
    && (forall u :: u in s'.overflow <==> u in s.overflow && u != t)
    && Shed(s.delayed, s'.delayed, t) && Shed(s.overflow, s'.overflow, t)
    && !IsReady(s, t) && RoundsOn(s, s', s.tcb[t].priority, t)
  }

  lemma Leaving(s: Sched, s': Sched, t: nat)
    requires Inv(s, t) && t < |s.tcb| && s' == s.(tcb := s.tcb[t := s.tcb[t].(event := Nowhere)])
    ensures Inv(s', t) && SameGeneric(s, s')
    ensures forall u :: 0 <= u < |s.tcb| ==> (IsReady(s', u) <==> IsReady(s, u))
  {
    hide Inv, IsReady;
    GenericOnly(s, s', t);
  }

  lemma WakeKeeps(s0: Sched, s1: Sched, s2: Sched, s3: Sched, t: nat, idle: nat)
    requires t < |s0.tcb| && OnlyOff(s0, s1, t) && s2 == s1.(tcb := s1.tcb[t := s1.tcb[t].(event := Nowhere)])
    requires forall u :: 0 <= u < |s0.tcb| ==> (IsReady(s2, u) <==> IsReady(s1, u))
    requires OnlyOn(s2, s3, t) && s3 == Readied(s2, t) && IsReady(s3, t)
    requires EventBlocked(s0, -1) && IsReady(s0, idle)
    requires LeftRounds(s0, s1, t) && RoundsOn(s2, s3, s2.tcb[t].priority, t) && !IsReady(s0, t)
    requires Shed(s0.delayed, s1.delayed, t) && Shed(s0.overflow, s1.overflow, t)
    requires s3.delayed == s2.delayed && s3.overflow == s2.overflow
    ensures JustWoken(s0, s3, t) && EventBlocked(s3, -1) && IsReady(s3, idle)
  {
    assert idle < |s0.tcb|;
    LeftNone(s0, s1, t);
    WokenRounds(s0, s1, s2, s3, s0.tcb[t].priority, t);
    hide OnReadyList, LeftRounds, RoundsOn, Shed;
  }

  lemma LeftNone(s: Sched, s': Sched, t: nat)
    requires LeftRounds(s, s', t) && !IsReady(s, t)
    ensures RoundsSame(s, s')
  {
  }

  lemma WokenRounds(s0: Sched, s1: Sched, s2: Sched, s3: Sched, p: nat, t: nat)
    requires RoundsSame(s0, s1) && s2.ready == s1.ready && RoundsOn(s2, s3, p, t)
    ensures RoundsOn(s0, s3, p, t)
  {
    hide FromIndex;
    forall q | 0 <= q < |s0.ready| ensures Round(s2, q) == Round(s1, q) {}
    hide Round;
  }

  lemma WokenStep(s0: Sched, s: Sched, s': Sched, t: nat)
    requires Woken(s0, s) && JustWoken(s, s', t) && t < |s.wake| && s.wake[t] == Now(s)
    ensures Woken(s0, s')
  {
    hide IsReady;
  }

  lemma HeadWoken(s0: Sched, s: Sched, s': Sched, t: nat, n: nat)
    requires Woken(s0, s) && HeadsWoken(s0, s, n) && JustWoken(s, s', t) && s.delayed != [] && s.delayed[0] == t
    requires t < |s.tcb| && s.tcb[t].value <= s.tick
    ensures n < |s0.delayed| && HeadsWoken(s0, s', n + 1)
  {
    assert IndexOf(s.delayed, t) == 0 && s0.delayed[..n] + [t] == s0.delayed[..n + 1];
    assert s'.delayed == s0.delayed[n + 1..];
    hide OnReadyList, RoundsGain, RoundsOn;
    GainNext(s0, s, s', s0.delayed[..n], t);
  }

  lemma TakenShorter(s: Sched, t: nat)
    requires Inv(s, -1) && t < |s.tcb|
    ensures t in s.delayed ==> |TakenOff(s, t).delayed| < |s.delayed|
  {
    if t in s.delayed { DropIs(s.delayed, t); }
  }

  /** Time has gone on from `s` to `s'`, and whoever's wake time has come is ready. */
  ghost predicate Passed(s: Sched, s': Sched) {
    && |s'.tcb| == |s.tcb| == |s.wake| && s'.wake == s.wake && Now(s) <= Now(s') && RoundsGrow(s, s')
    && (forall u :: 0 <= u < |s.tcb| ==> (IsReady(s', u) <==> IsReady(s, u) || s.wake[u] <= Now(s')))
    && (forall u :: 0 <= u < |s.tcb| ==> Eased(s.tcb[u], s'.tcb[u]))
  }

  lemma PassedTrans(a: Sched, b: Sched, c: Sched)
    requires Passed(a, b) && Passed(b, c)
    ensures Passed(a, c)
  {
    GrowTrans(a, b, c);
    hide IsReady, RoundsGrow;
  }

  lemma PassedSame(s: Sched)
    requires Inv(s, -1) && NoneDue(s)
    ensures Passed(s, s)
  {
    assert |s.wake| == |s.tcb|;
    GrowSame(s);
    hide Inv, NoneDue, IsReady, RoundsGrow;
    forall u: nat | u < |s.tcb| ensures IsReady(s, u) <==> IsReady(s, u) || s.wake[u] <= Now(s) { SleepsUntil(s, u); }
  }

  /** A tick readies exactly the tasks whose wake time it is. */
  lemma TickPassed(s: Sched, s': Sched)
    requires Inv(s, -1) && NoneDue(s) && Woken(Ticked(s), s') && Inv(s', -1) && NoneDue(s') && RoundsGrow(s, s')
    ensures Passed(s, s') && Now(s') == Now(s) + 1
    ensures forall u :: 0 <= u < |s.tcb| && IsBlocked(s, u) ==> (IsReady(s', u) <==> s.wake[u] == Now(s'))
  {
    TickStep(s);
    assert forall u :: 0 <= u < |s.tcb| ==> Eased(Ticked(s).tcb[u], s'.tcb[u]);
    assert Ticked(s).tcb == s.tcb;
    hide Inv, NoneDue, IsReady, IsBlocked, RoundsGrow, Eased;
    forall u: nat | u < |s.tcb| ensures IsReady(s', u) <==> IsReady(s, u) || s.wake[u] <= Now(s')
                                ensures IsBlocked(s, u) ==> (IsReady(s', u) <==> s.wake[u] == Now(s')) {
      SleepsUntil(s, u);
      SleepsUntil(s', u);
    }
  }

  // ---------- Draining the pending list ----------

  /** From `s` to `s'` some of the tasks on the pending list were readied. */
  ghost predicate Drained(s: Sched, s': Sched) {
    && |s'.tcb| == |s.tcb| && s'.wake == s.wake && s'.tick == s.tick && s'.epoch == s.epoch
    && (forall u :: 0 <= u < |s.tcb| ==> Eased(s.tcb[u], s'.tcb[u]))
    && (forall u :: 0 <= u < |s.tcb| ==>
          (IsReady(s', u) <==> IsReady(s, u) || (s.tcb[u].event == Pending && s'.tcb[u].event != Pending)))
    && (forall u :: u in s'.delayed ==> u in s.delayed)
  }

  lemma DrainStep(s0: Sched, s: Sched, s': Sched, list: seq<nat>, n: nat, t: nat)
    requires Drained(s0, s) && JustWoken(s, s', t) && s.tcb[t].event == Pending
    requires n < |list| && list[n] == t && RoundsGain(s0, s, list[..n])
    ensures Drained(s0, s') && RoundsGain(s0, s', list[..n + 1])
  {
    hide IsReady, RoundsGain, RoundsOn, Without;
    assert list[..n] + [t] == list[..n + 1];
    GainNext(s0, s, s', list[..n], t);
  }

  lemma DrainSame(s: Sched, list: seq<nat>)
    ensures Drained(s, s) && RoundsGain(s, s, list[..0])
  {
    hide OnReadyList, RoundsGain;
    GainNone(s);
    assert list[..0] == [];
  }

  lemma WaitingBlocked(s: Sched, t: nat)
    requires EventBlocked(s, -1) && t < |s.tcb| && s.tcb[t].event != Nowhere
    ensures IsBlocked(s, t)
  {
  }

  lemma DrainNoneDue(s: Sched, s': Sched)
    requires Drained(s, s') && NoneDue(s)
    ensures NoneDue(s') && Now(s') == Now(s)
  {
  }

  /** When the pending list is empty, every task that was on it is ready. */
  lemma DrainEnd(s: Sched, s': Sched, w: Waits)
    requires Drained(s, s') && EventsOK(s'.tcb, w) && w.pending.items == []
    ensures forall u :: 0 <= u < |s.tcb| ==> (IsReady(s', u) <==> IsReady(s, u) || s.tcb[u].event == Pending)
  {
    hide IsReady;
    forall u: nat | u < |s.tcb| ensures s'.tcb[u].event != Pending { assert EventAt(s'.tcb, w, u); }
  }

  /** Some task on the list has at least the priority of the current one. */
  ghost predicate Urgent(tcb: seq<Tcb>, list: seq<nat>, current: nat) {
    exists i :: 0 <= i < |list| && list[i] < |tcb| && current < |tcb| && tcb[list[i]].priority >= tcb[current].priority
  }

  lemma PendingHead(tcb: seq<Tcb>, w: Waits, current: nat)
    requires EventsOK(tcb, w) && w.pending.items != [] && current < |tcb|
    ensures var t, rest := w.pending.items[0], w.pending.items[1..];
            && t < |tcb| && tcb[t].event == Pending && Left(tcb, w, t).pending.items == rest
            && (Urgent(tcb, w.pending.items, current) <==>
                  || tcb[t].priority >= tcb[current].priority
                  || Urgent(tcb[t := tcb[t].(event := Nowhere)], rest, current))
  {
    FirstPending(tcb, w);
    hide EventsOK, Left, Urgent;
    UrgentRest(tcb, w.pending.items, current);
  }

  lemma FirstPending(tcb: seq<Tcb>, w: Waits)
    requires EventsOK(tcb, w) && w.pending.items != []
    ensures var t := w.pending.items[0];
            t < |tcb| && tcb[t].event == Pending && Left(tcb, w, t).pending.items == w.pending.items[1..]
  {
    assert EventListOK(tcb, w.pending.items, Pending);
    assert IndexOf(w.pending.items, w.pending.items[0]) == 0;
    hide EventListOK, EventAt, Distinct;
  }

  /** The first task of a list or one of the others is urgent. */
  lemma UrgentRest(tcb: seq<Tcb>, list: seq<nat>, current: nat)
    requires list != [] && list[0] < |tcb| && current < |tcb|
    ensures Urgent(tcb, list, current) <==>
              || tcb[list[0]].priority >= tcb[current].priority
              || Urgent(tcb[list[0] := tcb[list[0]].(event := Nowhere)], list[1..], current)
  {
    var tcb', rest := tcb[list[0] := tcb[list[0]].(event := Nowhere)], list[1..];
    if Urgent(tcb, list, current) && tcb[list[0]].priority < tcb[current].priority {
      var i :| 0 <= i < |list| && list[i] < |tcb| && tcb[list[i]].priority >= tcb[current].priority;
      assert rest[i - 1] == list[i];
    }
    if Urgent(tcb', rest, current) {
      var i :| 0 <= i < |rest| && rest[i] < |tcb'| && tcb'[rest[i]].priority >= tcb'[current].priority;
      assert list[i + 1] == rest[i];
    }
  }

  lemma NotUrgent(tcb: seq<Tcb>, list: seq<nat>, current: nat)
    requires |list| == 0
    ensures !Urgent(tcb, list, current)
  {
  }

  lemma WokenTcb(s: Sched, s': Sched, t: nat)
    requires JustWoken(s, s', t)
    ensures t < |s.tcb| && s'.tcb == s.tcb[t := s.tcb[t].(event := Nowhere)]
  {
  }

  lemma LeftPending(tcb: seq<Tcb>, w: Waits, t: nat)
    requires t < |tcb| && w.pending.items == []
    ensures Left(tcb, w, t).pending.items == []
  {
  }

  lemma TickedIs(s: Sched)
    requires s.tick < 0x1_0000_0000
    ensures (s.tick + 1) % 0x1_0000_0000 == 0 ==>
              Ticked(s) == s.(tick := 0, epoch := s.epoch + 1, delayed := s.overflow, overflow := s.delayed)
    ensures (s.tick + 1) % 0x1_0000_0000 != 0 ==> Ticked(s) == s.(tick := (s.tick + 1) % 0x1_0000_0000)
    ensures (s.epoch % 0x1_0000_0000 + 1) % 0x1_0000_0000 == (s.epoch + 1) % 0x1_0000_0000
  {
  }

  lemma TickedRounds(s: Sched)
    ensures RoundsSame(s, Ticked(s))
  {
    hide FromIndex;
  }

  lemma HeadsGrow(s: Sched, s': Sched, n: nat)
    requires HeadsWoken(s, s', n)
    ensures RoundsGrow(s, s')
  {
    hide RoundsGain, RoundsGrow;
    GainGrows(s, s', s.delayed[..n]);
  }

  lemma HeadsLeft(s: Sched, s': Sched, n: nat)
    requires HeadsWoken(s, s', n)
    ensures |s'.delayed| == |s.delayed| - n
  {
    hide RoundsGain;
  }

  lemma InDelayed(s: Sched, t: nat)
    requires t in s.delayed
    ensures IsBlocked(s, t)
  {
  }

  lemma TickedEvents(s: Sched)
    requires EventBlocked(s, -1)
    ensures EventBlocked(Ticked(s), -1)
  {
  }

  /** After a resume: the pending tasks and those whose time has come are ready, nobody else. */
  lemma CaughtUp(s0: Sched, s1: Sched, w: Waits, s2: Sched)
    requires Drained(s0, s1) && EventsOK(s1.tcb, w) && w.pending.items == [] && Passed(s1, s2)
    requires RoundsGrow(s0, s1)
    ensures |s2.tcb| == |s0.tcb| && s2.wake == s0.wake && RoundsGrow(s0, s2)
    ensures forall u :: 0 <= u < |s0.tcb| ==> Eased(s0.tcb[u], s2.tcb[u])
    ensures forall u :: 0 <= u < |s0.tcb| && u < |s0.wake| ==>
              (IsReady(s2, u) <==> IsReady(s0, u) || s0.tcb[u].event == Pending || s0.wake[u] <= Now(s2))
  {
    GrowTrans(s0, s1, s2);
    hide IsReady, RoundsGrow;
    DrainEnd(s0, s1, w);
  }

  // ---------- Switching ----------

  lemma ReadySomewhere(s: Sched, t: nat)
    requires Inv(s, -1) && IsReady(s, t)
    ensures |s.ready| == 7 && exists p :: 0 <= p <= s.top && s.ready[p].items != []
  {
    assert TaskOK(s, t, -1);
    var p := s.tcb[t].priority;
    assert s.ready[p].items != [];
  }

  /** An empty list at the top priority means that the bound can come down. */
  lemma LowerTop(s: Sched)
    requires Inv(s, -1) && s.top < |s.ready| && s.ready[s.top].items == []
    requires exists p :: 0 <= p <= s.top && s.ready[p].items != []
    ensures s.top > 0 && Inv(s.(top := s.top - 1), -1)
    ensures exists p :: 0 <= p <= s.top - 1 && s.ready[p].items != []
  {
    var s' := s.(top := s.top - 1);
    hide ListOK, ReadyListOK, OnReadyList;
    forall u: nat | u < |s.tcb| ensures TaskOK(s', u, -1) { assert TaskOK(s, u, -1); }
  }

  lemma TurnOf(s: Sched)
    requires Inv(s, -1) && s.top < |s.ready| && s.ready[s.top].items != []
    ensures s.ready[s.top].Valid() && |s.ready[s.top].items| > 0
    ensures s.ready[s.top].Next().Valid() && s.ready[s.top].Next().at > 0
  {
    assert ReadyListOK(s.tcb, s.ready[s.top], s.top);
  }

  lemma TurnedRounds(s: Sched, s': Sched)
    requires s.top < |s.ready| && s.ready[s.top].items != [] && s.ready[s.top].Valid()
    requires s' == s.(ready := s.ready[s.top := s.ready[s.top].Next()])
    ensures RoundsTurn(s, s', s.top) && s'.ready[s.top].Current() == Round(s, s.top)[0]
  {
    NextTurns(s.ready[s.top]);
    hide Ring.Next, Ring.Current, FromIndex;
  }

  /** The task whose turn it is has the top priority. */
  lemma Turned(s: Sched, s': Sched)
    requires Inv(s, -1) && s.top < |s.ready| && s.ready[s.top].items != [] && s.ready[s.top].Valid()
    requires s' == s.(ready := s.ready[s.top := s.ready[s.top].Next()])
    ensures Inv(s', -1) && s'.ready[s.top].Valid() && s'.ready[s.top].at > 0
    ensures var t := s'.ready[s.top].Current(); t < |s.tcb| && IsReady(s', t) && s.tcb[t].priority == s.top
    ensures RoundsTurn(s, s', s.top) && s'.ready[s.top].Current() == Round(s, s.top)[0]
    ensures forall u :: 0 <= u < |s.tcb| ==>
              (IsReady(s', u) <==> IsReady(s, u)) && (IsReady(s', u) ==> s.tcb[u].priority <= s.top)
  {
    var list := s.ready[s.top];
    TurnedRounds(s, s');
    hide RoundsTurn, Round;
    assert ReadyListOK(s.tcb, list, s.top) && list.Next().items == list.items;
    assert ReadyListOK(s.tcb, list.Next(), s.top);
    assert list.Next().Current() in list.items;
    hide ListOK;
    forall u: nat | u < |s.tcb| ensures TaskOK(s', u, -1) { assert TaskOK(s, u, -1); }
  }

  lemma TurnFrom(s0: Sched, s: Sched, s': Sched, p: nat)
    requires s.ready == s0.ready && RoundsTurn(s, s', p)
    ensures RoundsTurn(s0, s', p) && Round(s, p) == Round(s0, p)
  {
    hide FromIndex;
    forall q ensures Round(s, q) == Round(s0, q) {}
    hide Round;
  }

  lemma SwitchedFrom(s0: Sched, s: Sched, s': Sched, idle: nat, w: Waits)
    requires s == s0.(top := s.top) && s' == s.(ready := s'.ready) && EventBlocked(s0, -1)
    requires forall u :: 0 <= u < |s.tcb| ==>
              (IsReady(s', u) <==> IsReady(s, u)) && (IsReady(s', u) ==> s.tcb[u].priority <= s.top)
    requires IsReady(s0, idle)
    ensures EventBlocked(s', -1) && IsReady(s', idle) && (NoneDue(s0) ==> NoneDue(s')) && Now(s') == Now(s0)
    ensures forall u :: 0 <= u < |s.tcb| ==>
              (IsReady(s', u) <==> IsReady(s0, u)) && (IsReady(s', u) ==> s.tcb[u].priority <= s.top)
  {
    assert idle < |s.tcb|;
    hide OnReadyList;
  }

  // ---------- Blocking ----------

  /** Only `t` has moved: it is blocked until `ticks` from now. */
  ghost predicate JustSlept(s: Sched, s': Sched, t: nat, ticks: nat) {
    && t < |s.tcb| == |s.wake| && |s'.tcb| == |s.tcb| && s'.tcb == s.tcb[t := s.tcb[t].(value := s'.tcb[t].value)]
    && s'.tick == s.tick && s'.epoch == s.epoch && s'.wake == s.wake[t := Now(s) + ticks] && IsBlocked(s', t)
    && (forall u :: 0 <= u < |s.tcb| && u != t ==> (IsReady(s', u) <==> IsReady(s, u)))
    && (forall u :: u != t ==> (u in s'.delayed <==> u in s.delayed) && (u in s'.overflow <==> u in s.overflow))
    && LeftRounds(s, s', t)
  }

  lemma SleptFields(s: Sched, t: nat, ticks: nat)
    requires t < |s.tcb| && t < |s.wake|
    ensures var v := (s.tick + ticks) % 0x1_0000_0000;
            var s' := s.(tcb := s.tcb[t := s.tcb[t].(value := v)],
                         wake := s.wake[t := s.epoch * 0x1_0000_0000 + s.tick + ticks]);
            Slept(s, t, ticks) == if v < s.tick then s'.(overflow := InsertedIn(s'.tcb, s.overflow, t))
                                  else s'.(delayed := InsertedIn(s'.tcb, s.delayed, t))
  {
    hide InsertedIn;
  }

  lemma Asleep(s0: Sched, s1: Sched, s2: Sched, t: nat, ticks: nat)
    requires t < |s0.tcb| == |s0.wake| && OnlyOff(s0, s1, t) && OnlyOn(s1, s2, t) && s2.ready == s1.ready
    requires IsBlocked(s2, t)
    requires s1.wake == s0.wake && s1.tcb == s0.tcb && Now(s1) == Now(s0) && |s2.tcb| == |s0.tcb|
    requires s2.tcb == s0.tcb[t := s0.tcb[t].(value := s2.tcb[t].value)] && s2.wake == s0.wake[t := Now(s0) + ticks]
    requires EventBlocked(s0, t)
    requires LeftRounds(s0, s1, t)
    ensures JustSlept(s0, s2, t, ticks) && EventBlocked(s2, -1)
    ensures forall u :: 0 <= u < |s0.tcb| ==> s2.tcb[u].event == s0.tcb[u].event
  {
    RoundsKept(s0, s1, s2, t);
    hide OnReadyList, Now, LeftRounds;
    assert s2.tick == s0.tick && s2.epoch == s0.epoch;
  }

  lemma RoundsKept(s0: Sched, s1: Sched, s2: Sched, t: nat)
    requires s2.ready == s1.ready && LeftRounds(s0, s1, t)
    ensures LeftRounds(s0, s2, t)
  {
    hide FromIndex, OnReadyList;
    forall q | 0 <= q < |s1.ready| ensures Round(s2, q) == Round(s1, q) {}
    hide Round, Without;
  }

  lemma OffNoneDue(s: Sched, s': Sched, t: nat)
    requires OnlyOff(s, s', t) && NoneDue(s)
    ensures NoneDue(s') && Now(s') == Now(s) && s'.wake == s.wake && s'.tcb == s.tcb
  {
  }

  lemma InvIs(s: Sched, out: int)
    requires Inv(s, out)
    ensures |s.wake| == |s.tcb| && s.tick < 0x1_0000_0000
  {
  }

  lemma EventBlockedAll(s: Sched, t: int)
    requires EventBlocked(s, -1)
    ensures EventBlocked(s, t)
  {
  }

  lemma IdleStays(s: Sched, s': Sched, t: nat, ticks: nat, idle: nat)
    requires JustSlept(s, s', t, ticks) && IsReady(s, idle) && t != idle
    ensures IsReady(s', idle) && Now(s') == Now(s) && |s'.tcb| == |s.tcb|
  {
    assert idle < |s.tcb|;
    hide OnReadyList;
  }

  /** A ready task waits for no event. */
  lemma RunningWaitsForNothing(s: Sched, t: nat)
    requires Inv(s, -1) && EventBlocked(s, -1) && IsReady(s, t)
    ensures t < |s.tcb| && s.tcb[t].event == Nowhere
  {
    assert TaskOK(s, t, -1);
  }

  lemma JoinedIs(tcb: seq<Tcb>, w: Waits, e: nat, t: nat)
    requires t < |tcb| && e < |w.events|
    ensures var list, p := w.events[e], Position(EventValues(tcb, w.events[e]), tcb[t].eventValue);
            Joined(tcb, w, e, t) == w.(events := w.events[e := list[..p] + [t] + list[p..]])
  {
  }

  /** A change of the event field alone. */
  lemma EventField(s: Sched, s': Sched, t: nat, place: EventPlace, idle: nat)
    requires Inv(s, -1) && t < |s.tcb| && s' == s.(tcb := s.tcb[t := s.tcb[t].(event := place)])
    requires IsReady(s, idle) && EventBlocked(s, -1)
    ensures Inv(s', -1) && IsReady(s', idle) && (NoneDue(s) ==> NoneDue(s')) && Now(s') == Now(s)
    ensures EventBlocked(s', t) && (s.tcb[t].event != Nowhere ==> EventBlocked(s', -1))
  {
    GenericOnly(s, s', -1);
    assert idle < |s.tcb|;
    hide Inv, OnReadyList;
  }

  lemma EventHead(tcb: seq<Tcb>, w: Waits, e: nat)
    requires EventsOK(tcb, w) && e < |w.events| && w.events[e] != []
    ensures var t := w.events[e][0];
            && t < |tcb| && tcb[t].event == Waiting(e)
            && Left(tcb, w, t) == w.(events := w.events[e := w.events[e][1..]])
  {
    assert EventListOK(tcb, w.events[e], Waiting(e));
    var list := w.events[e];
    assert IndexOf(list, list[0]) == 0;
    assert Drop(list, list[0]) == list[1..];
  }

  lemma WokenNoneDue(s: Sched, s': Sched, t: nat)
    requires JustWoken(s, s', t)
    ensures (NoneDue(s) ==> NoneDue(s')) && Now(s') == Now(s)
  {
    hide IsReady;
  }

  lemma TcbUpdate(tcb: seq<Tcb>, t: nat, place: EventPlace)
    requires t < |tcb|
    ensures var tcb' := tcb[t := tcb[t].(event := Nowhere)];
            tcb'[t := tcb'[t].(event := place)] == tcb[t := tcb[t].(event := place)]
    ensures tcb[t := tcb[t].(event := Nowhere)][t].event == Nowhere
  {
  }

  lemma NowIs(s: Sched)
    ensures Now(s) == s.epoch * 0x1_0000_0000 + s.tick
  {
  }

  // ---------- Changing priorities ----------

  /** Only priorities, and the value that orders event lists, differ. */
  ghost predicate Adjusts(a: Tcb, b: Tcb) {
    && b == a.(priority := b.priority, basePriority := b.basePriority, eventValue := b.eventValue) && b.priority < 7
    && b.basePriority < 7
  }

  /** Task `t` has become `changed`; nobody was readied or blocked by that. */
  ghost predicate Renewed(s: Sched, s': Sched, t: nat, changed: Tcb) {
    && t < |s.tcb| && s'.tcb == s.tcb[t := changed] && s'.wake == s.wake && s'.tick == s.tick && s'.epoch == s.epoch
    && (forall u :: 0 <= u < |s.tcb| ==> (IsReady(s', u) <==> IsReady(s, u)))
    && (forall u :: (u in s'.delayed <==> u in s.delayed) && (u in s'.overflow <==> u in s.overflow))
    && (if IsReady(s, t) && changed.priority != s.tcb[t].priority
        then RoundsMoved(s, s', s.tcb[t].priority, changed.priority, t) else RoundsSame(s, s'))
  }

  lemma RenewedSame(s: Sched, t: nat)
    requires t < |s.tcb|
    ensures Renewed(s, s, t, s.tcb[t])
  {
    hide OnReadyList, Round;
    assert s.tcb[t := s.tcb[t]] == s.tcb;
  }

  lemma RenewedIs(s: Sched, s': Sched, t: nat, changed: Tcb)
    requires Renewed(s, s', t, changed)
    ensures t < |s.tcb| && s'.tcb == s.tcb[t := changed] && Now(s') == Now(s)
  {
  }

  lemma ReadyOnly(s: Sched, t: nat)
    requires Inv(s, -1) && IsReady(s, t)
    ensures t < |s.tcb| && !IsBlocked(s, t)
  {
    assert TaskOK(s, t, -1);
  }

  lemma AdjustsIntro(s: Sched, t: nat, changed: Tcb)
    requires t < |s.tcb| && changed.priority < 7 && changed.basePriority < 7
    requires changed == s.tcb[t].(priority := changed.priority, basePriority := changed.basePriority,
                                  eventValue := changed.eventValue)
    ensures Adjusts(s.tcb[t], changed)
  {
  }

  lemma AdjustedOut(s: Sched, s': Sched, t: nat, changed: Tcb)
    requires Inv(s, t) && t < |s.tcb| && s' == s.(tcb := s.tcb[t := changed]) && Adjusts(s.tcb[t], changed)
    ensures Inv(s', t) && (NoneDue(s) ==> NoneDue(s'))
    ensures forall u :: 0 <= u < |s.tcb| ==> (IsReady(s', u) <==> IsReady(s, u))
  {
    hide Inv, NoneDue, IsReady;
    Reprioritised(s, s', t, t);
  }

  lemma PutReadyFields(s: Sched, t: nat)
    requires t < |s.tcb|
    ensures Readied(s, t) == s.(top := Readied(s, t).top, ready := Readied(s, t).ready)
  {
  }

  lemma RenewedReady(s0: Sched, s1: Sched, s2: Sched, s3: Sched, t: nat, changed: Tcb)
    requires t < |s0.tcb| && IsReady(s0, t) && !IsBlocked(s0, t) && OnlyOff(s0, s1, t)
    requires s2 == s1.(tcb := s1.tcb[t := changed])
    requires forall u :: 0 <= u < |s0.tcb| ==> (IsReady(s2, u) <==> IsReady(s1, u))
    requires OnlyOn(s2, s3, t) && IsReady(s3, t) && s3 == s2.(top := s3.top, ready := s3.ready)
    requires LeftRounds(s0, s1, t) && RoundsOn(s2, s3, changed.priority, t)
    requires changed.priority != s0.tcb[t].priority
    ensures Renewed(s0, s3, t, changed)
  {
    MovedRounds(s0, s1, s2, s3, s0.tcb[t].priority, changed.priority, t);
    hide OnReadyList, RoundsOff, RoundsOn, RoundsMoved;
  }

  lemma MovedRounds(s0: Sched, s1: Sched, s2: Sched, s3: Sched, p: nat, p': nat, t: nat)
    requires s2.ready == s1.ready && RoundsOff(s0, s1, p, t) && RoundsOn(s2, s3, p', t) && p != p'
    ensures RoundsMoved(s0, s3, p, p', t)
  {
    hide FromIndex;
    forall q | 0 <= q < |s1.ready| ensures Round(s2, q) == Round(s1, q) {}
    hide Round, Without;
  }

  lemma SameReady(s: Sched, s': Sched)
    requires s'.ready == s.ready
    ensures RoundsSame(s, s')
  {
    hide FromIndex;
  }

  lemma AdjustedInPlace(s: Sched, s': Sched, t: nat, changed: Tcb)
    requires Inv(s, -1) && t < |s.tcb| && s' == s.(tcb := s.tcb[t := changed]) && Adjusts(s.tcb[t], changed)
    requires IsBlocked(s, t) || changed.priority == s.tcb[t].priority
    ensures Inv(s', -1) && Renewed(s, s', t, changed)
  {
    assert TaskOK(s, t, -1);
    SameReady(s, s');
    hide Inv, RoundsSame, RoundsMoved;
    if IsBlocked(s, t) {
      Reprioritised(s, s', t, -1);
    } else {
      SameBase(s, s', t, changed);
    }
  }

  lemma SameBase(s: Sched, s': Sched, t: nat, changed: Tcb)
    requires Inv(s, -1) && t < |s.tcb| && s' == s.(tcb := s.tcb[t := changed]) && Adjusts(s.tcb[t], changed)
    requires changed.priority == s.tcb[t].priority
    ensures Inv(s', -1)
    ensures forall u :: 0 <= u < |s.tcb| ==> (IsReady(s', u) <==> IsReady(s, u))
  {
    GenericOnly(s, s', -1);
  }

  lemma RenewedKeeps(s: Sched, s': Sched, t: nat, changed: Tcb, idle: nat, w: Waits)
    requires Renewed(s, s', t, changed) && Adjusts(s.tcb[t], changed)
    requires EventBlocked(s, -1) && IsReady(s, idle) && EventsOK(s.tcb, w) && NoneDue(s)
    ensures EventBlocked(s', -1) && IsReady(s', idle) && EventsOK(s'.tcb, w) && NoneDue(s') && Now(s') == Now(s)
    ensures |s'.tcb| == |s.tcb|
  {
    assert idle < |s.tcb|;
    hide OnReadyList;
    EventsSame(s.tcb, s'.tcb, w);
  }

  /** Which list a task is on, seen from the priority it is looked up by. */
  lemma InItsList(s: Sched, t: nat, p: nat)
    requires Inv(s, -1) && t < |s.tcb| && (p == s.tcb[t].basePriority || p == s.tcb[t].priority)
    ensures p < 7 == |s.ready| && s.tcb[t].priority < 7 && s.tcb[t].basePriority < 7
    ensures t in s.ready[p].items ==> IsReady(s, t) && s.tcb[t].priority == p
    ensures t !in s.ready[p].items && s.tcb[t].priority == p ==> IsBlocked(s, t)
  {
    assert TaskOK(s, t, -1);
    if t in s.ready[p].items { ReadyAt(s, p, t); }
  }

  lemma PriorityBound(s: Sched, t: nat)
    requires Inv(s, -1) && t < |s.tcb|
    ensures s.tcb[t].priority < 7
  {
    assert TaskOK(s, t, -1);
  }

  lemma BaseBound(s: Sched, t: nat)
    requires Inv(s, -1) && t < |s.tcb|
    ensures s.tcb[t].basePriority < 7
  {
    assert TaskOK(s, t, -1);
  }

  // ---------- Creating tasks ----------

  /** A new task that is on no list yet. */
  lemma Added(s: Sched, s': Sched, w: Waits, idle: nat)
    requires Inv(s, -1) && EventsOK(s.tcb, w) && |s'.tcb| == |s.tcb| + 1 && |s'.wake| == |s.wake| + 1
    requires s' == s.(tcb := s.tcb + [s'.tcb[|s.tcb|]], wake := s.wake + [0])
    requires s'.tcb[|s.tcb|].priority < 7 && s'.tcb[|s.tcb|].basePriority < 7 && s'.tcb[|s.tcb|].event == Nowhere
    ensures Inv(s', |s.tcb|) && EventsOK(s'.tcb, w)
  {
    AddedLists(s, s');
    var n := |s.tcb|;
    forall u: nat | u < |s'.tcb| ensures EventAt(s'.tcb, w, u) { if u < n { assert EventAt(s.tcb, w, u); } }
    NotYetListed(s, n);
    hide Lists, ListOK, EventsOK;
    forall u: nat | u < |s'.tcb| ensures TaskOK(s', u, n) { if u < n { assert TaskOK(s, u, -1); } }
  }

  lemma NotYetListed(s: Sched, n: nat)
    requires Lists(s) && n >= |s.tcb|
    ensures n !in s.delayed && n !in s.overflow && forall p :: 0 <= p < 7 ==> n !in s.ready[p].items
  {
    assert InRange(s.tcb, s.delayed) && InRange(s.tcb, s.overflow);
    forall p | 0 <= p < 7 ensures n !in s.ready[p].items { assert ReadyListOK(s.tcb, s.ready[p], p); }
  }

  lemma AddedLists(s: Sched, s': Sched)
    requires Lists(s) && |s'.tcb| == |s.tcb| + 1 && |s'.wake| == |s.wake| + 1
    requires s' == s.(tcb := s.tcb + [s'.tcb[|s.tcb|]], wake := s'.wake)
    ensures Lists(s')
  {
    assert Values(s'.tcb, s.delayed) == Values(s.tcb, s.delayed);
    assert Values(s'.tcb, s.overflow) == Values(s.tcb, s.overflow);
    forall p | 0 <= p < 7 ensures ReadyListOK(s'.tcb, s'.ready[p], p) { assert ReadyListOK(s.tcb, s.ready[p], p); }
  }

  lemma AddedReady(s: Sched, s1: Sched, s': Sched, idle: nat)
    requires Inv(s, -1) && EventBlocked(s, -1) && NoneDue(s) && IsReady(s, idle)
    requires |s1.tcb| == |s.tcb| + 1 && s1 == s.(tcb := s.tcb + [s1.tcb[|s.tcb|]], wake := s1.wake)
    requires s1.tcb[|s.tcb|].event == Nowhere
    requires OnlyOn(s1, s', |s.tcb|) && s' == s1.(top := s'.top, ready := s'.ready)
    requires RoundsOn(s1, s', s1.tcb[|s.tcb|].priority, |s.tcb|)
    ensures RoundsOn(s, s', s1.tcb[|s.tcb|].priority, |s.tcb|)
    ensures EventBlocked(s', -1) && NoneDue(s') && IsReady(s', idle) && Now(s') == Now(s)
    ensures forall u :: 0 <= u < |s.tcb| ==> (IsReady(s', u) <==> IsReady(s, u))
  {
    assert idle < |s.tcb|;
    SameReady(s, s1);
    WokenRounds(s, s1, s1, s', s1.tcb[|s.tcb|].priority, |s.tcb|);
    hide RoundsOn, RoundsSame;
    assert forall u :: 0 <= u < |s.tcb| ==> (IsReady(s1, u) <==> IsReady(s, u));
    NotYetListed(s, |s.tcb|);
    assert InRange(s.tcb, s.delayed);
    hide OnReadyList, Inv;
  }

  /** The task has the highest priority of all. */
  ghost predicate Highest(tcb: seq<Tcb>, u: nat) {
    u < |tcb| && forall v :: 0 <= v < |tcb| ==> tcb[v].priority <= tcb[u].priority
  }

  /** The new task or the one that had the highest priority so far. */
  lemma HighestNext(tcb: seq<Tcb>, new': Tcb, u: nat, asked: nat)
    requires u < |tcb| && (forall v :: 0 <= v < |tcb| ==> tcb[v].priority < 7)
    requires new'.priority == if asked >= 7 then 6 else asked
    ensures Highest(tcb, u) ==> Highest(tcb + [new'], if tcb[u].priority <= asked then |tcb| else u)
  {
  }

  lemma Initial(s: Sched)
    requires s.tcb == [Tcb(0, 0, 0, 7, Nowhere)] && |s.ready| == 7 && s.ready[0] == Ring([0], 1)
    requires (forall p :: 1 <= p < 7 ==> s.ready[p] == Ring([], 0)) && s.top == 0 && s.delayed == s.overflow == []
    requires s.tick == s.epoch == 0 && s.wake == [0]
    ensures Inv(s, -1) && EventBlocked(s, -1) && IsReady(s, 0) && NoneDue(s)
  {
    assert 0 in s.ready[0].items;
    forall p | 0 <= p < 7 ensures ReadyListOK(s.tcb, s.ready[p], p) {}
    hide ReadyListOK;
    assert Lists(s);
    hide Lists;
    assert TaskOK(s, 0, -1);
  }

  lemma InitialEvents(tcb: seq<Tcb>, w: Waits)
    requires tcb == [Tcb(0, 0, 0, 7, Nowhere)] && w.pending == Ring([], 0)
    requires forall e :: 0 <= e < |w.events| ==> w.events[e] == []
    ensures EventsOK(tcb, w)
  {
  }
}
