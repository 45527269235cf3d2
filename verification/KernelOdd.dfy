/** A run after which an event does not wake the waiting task of the highest priority. */
module KernelOdd {
  import opened Seqs
  import opened KernelRing
  import opened KernelSched
  import opened KernelOrder
  import opened KernelTasks

  lemma OnlyHighest(tcb: seq<Tcb>, u: nat, v: nat)
    requires Highest(tcb, u) && v < |tcb| && tcb[v].priority > 0
    requires forall x :: 0 <= x < |tcb| && x != v ==> tcb[x].priority < tcb[v].priority
    ensures u == v
  {
  }

  lemma GivenNowhere(o: Order, tcb: seq<Tcb>, tcb': seq<Tcb>, t: nat, odd: bool)
    requires t < |tcb| && t < |tcb'| && tcb[t].event == Nowhere
    ensures Given(o, tcb, tcb', t, odd) == o.(odd := if odd then o.odd + {t} else o.odd - {t})
  {
  }

  lemma RenewedReadies(s: Sched, s': Sched, t: nat, changed: Tcb)
    requires Renewed(s, s', t, changed)
    ensures forall u :: 0 <= u < |s.tcb| ==> (IsReady(s', u) <==> IsReady(s, u))
  {
  }

  lemma HighestStart(tcb: seq<Tcb>)
    requires |tcb| == 1
    ensures Highest(tcb, 0)
  {
  }

  lemma StartingIs(o: Order)
    ensures Starting(o).odd == o.odd && Starting(o).stirred == o.stirred
  {
  }

  /** Three tasks, the current one of priority 5. */
  method ThreeTasks() returns (k: Kernel)
    ensures fresh(k) && k.Valid() && k.suspended == 0 && k.idle == 0 && |k.tcb| == 3 && k.running && k.current == 1
    ensures k.tcb[0].priority == 0 && k.tcb[1].priority == 5 && k.tcb[2].priority == k.tcb[2].basePriority == 1
    ensures k.order.odd == k.order.stirred == {} && k.events == [[], []]
    ensures IsReady(k.S(), 0) && IsReady(k.S(), 1) && IsReady(k.S(), 2)
  {
    hide *;
    k := new Kernel(2);
    assert k.events == [[], []];
    HighestStart(k.tcb);
    StartingIs(k.order);
    StartingIs(Starting(k.order));
    k.ValidIs();
    k.SoundIs();
    var t1, y1 := k.Create(5);
    OnlyHighest(k.tcb, k.current, 1);
    var t2, y2 := k.Create(1);
    OnlyHighest(k.tcb, k.current, 1);
    k.StartScheduler();
    k.ValidIs();
    k.SoundIs();
  }

  /** Task 2 inherits the priority of task 1, and then its base priority is set. */
  method LendAndSet(k: Kernel)
    requires k.Valid() && k.suspended == 0 && k.idle == 0 && |k.tcb| == 3 && k.current == 1
    requires k.tcb[1].priority == 5 && k.tcb[2].priority == k.tcb[2].basePriority == 1
    requires k.order.odd == k.order.stirred == {}
    requires IsReady(k.S(), 0) && IsReady(k.S(), 1) && IsReady(k.S(), 2)
    modifies k
    ensures k.Valid() && k.suspended == 0 && |k.tcb| == 3 && k.current == 1 && k.events == old(k.events)
    ensures k.tcb[0] == old(k.tcb[0]) && k.tcb[1] == old(k.tcb[1])
    ensures k.tcb[2].priority == 5 && k.tcb[2].basePriority == 2
    ensures k.order.odd == {2} && k.order.stirred == {} && k.running == old(k.running)
    ensures IsReady(k.S(), 0) && IsReady(k.S(), 1) && IsReady(k.S(), 2)
  {
    hide *;
    k.ValidIs();
    k.SoundIs();
    k.SIs();
    RunningWaitsForNothing(k.S(), 2);
    ghost var s0, o0 := k.S(), k.order;
    k.PriorityInherit(2);
    k.ValidIs();
    k.SoundIs();
    k.SIs();
    ghost var s1, o1 := k.S(), k.order;
    RenewedIs(s0, s1, 2, k.tcb[2]);
    RenewedReadies(s0, s1, 2, k.tcb[2]);
    GivenNowhere(o0, s0.tcb, s1.tcb, 2, false);
    RunningWaitsForNothing(s1, 2);
    var y := k.PrioritySet(2, 2);
    k.SIs();
    RenewedIs(s1, k.S(), 2, k.tcb[2]);
    RenewedReadies(s1, k.S(), 2, k.tcb[2]);
    GivenNowhere(o1, s1.tcb, k.tcb, 2, true);
  }

  lemma AwaitedReadies(s: Sched, s': Sched, t: nat, place: EventPlace, ticks: nat)
    requires Inv(s', -1) && t < |s.tcb| && JustSlept(s.(tcb := s.tcb[t := s.tcb[t].(event := place)]), s', t, ticks)
    ensures |s'.tcb| == |s.tcb| && forall u :: 0 <= u < |s.tcb| ==> (IsReady(s', u) <==> IsReady(s, u) && u != t)
    ensures forall u :: 0 <= u < |s.tcb| ==>
              s'.tcb[u].priority == s.tcb[u].priority && s'.tcb[u].basePriority == s.tcb[u].basePriority
  {
    assert TaskOK(s', t, -1);
    hide Inv, LeftRounds;
  }

  lemma AwaitedLists(tcb: seq<Tcb>, w: Waits, o: Order, w': Waits, o': Order, e: nat, t: nat)
    requires t < |tcb| && e < |w.events| && w' == Joined(tcb, w, e, t)
    requires t < |o.came| && o' == Joining(Calling(o, t), w, e)
    ensures |w'.events| == |w.events| && (forall j :: 0 <= j < |w.events| && j != e ==> w'.events[j] == w.events[j])
    ensures |w.events[e]| == 0 ==> w'.events[e] == [t]
    ensures |w.events[e]| == 1 ==> w'.events[e] in {[t] + w.events[e], w.events[e] + [t]}
    ensures o'.odd == o.odd && (o.stirred == {} ==> o'.stirred == {})
  {
    JoinedIs(tcb, w, e, t);
    var list, p := w.events[e], Position(EventValues(tcb, w.events[e]), tcb[t].eventValue);
    hide Position, EventValues, Joined;
    if p == 0 { assert list[..p] + [t] + list[p..] == [t] + list; }
    if p == |list| { assert list[..p] + [t] + list[p..] == list + [t]; }
  }

  /** The current task waits for an event; nobody else is concerned. */
  method Await(k: Kernel, e: nat)
    requires k.Valid() && e < |k.events| && k.current != k.idle && IsReady(k.S(), k.current)
    modifies k
    ensures k.Valid() && k.suspended == old(k.suspended) && |k.tcb| == |old(k.tcb)| && k.running == old(k.running)
    ensures k.current == old(k.current) < |k.tcb| && |k.events| == |old(k.events)|
    ensures forall u :: 0 <= u < |k.tcb| ==> (IsReady(k.S(), u) <==> old(IsReady(k.S(), u)) && u != k.current)
    ensures forall u :: 0 <= u < |k.tcb| ==> k.tcb[u].priority == old(k.tcb)[u].priority
                                             && k.tcb[u].basePriority == old(k.tcb)[u].basePriority
    ensures forall j :: 0 <= j < |k.events| && j != e ==> k.events[j] == old(k.events)[j]
    ensures |old(k.events)[e]| == 0 ==> k.events[e] == [k.current]
    ensures |old(k.events)[e]| == 1 ==>
              k.events[e] in {[k.current] + old(k.events)[e], old(k.events)[e] + [k.current]}
    ensures k.order.odd == old(k.order).odd && (old(k.order).stirred == {} ==> k.order.stirred == {})
  {
    hide *;
    k.SIs();
    ghost var s, w, o := k.S(), k.W(), k.order;
    k.PlaceOnEventList(e, 10);
    k.ValidIs();
    k.SoundIs();
    k.SIs();
    AwaitedReadies(s, k.S(), k.current, Waiting(e), 10);
    AwaitedLists(s.tcb, w, o, k.W(), k.order, e, k.current);
  }

  /** Task 3, of priority 3, waits before task 2, which has priority 5. */
  method LowerFirst() returns (k: Kernel)
    ensures fresh(k) && k.Valid() && k.suspended == 0 && |k.events| == 2 && k.events[0] == [3, 2] && |k.tcb| == 4
    ensures k.tcb[3].priority == 3 && k.tcb[2].priority == 5 && 0 !in k.order.stirred
  {
    hide *;
    k := ThreeTasks();
    LendAndSet(k);
    Await(k, 1);
    k.SwitchContext();
    assert k.current == 2;
    Await(k, 0);
    StartingIs(k.order);
    ghost var tcb := k.tcb;
    var t3, y := k.Create(3);
    assert forall u :: 0 <= u < 3 ==> k.tcb[u] == tcb[u];
    k.SwitchContext();
    assert k.current == 3;
    Await(k, 0);
    k.ValidIs();
    k.SoundIs();
    k.SIs();
    NextIsFirst(k.S(), k.W(), k.order, 0);
    FirstOfTwo(k.tcb, k.order, k.events[0]);
  }

  /** The event wakes the task of the lower priority, although no priority was changed while they waited. */
  method LowerWoken() returns (k: Kernel)
    ensures fresh(k) && k.Valid() && |k.events| == 2 && |k.tcb| == 4 && k.events[0] == [2] && IsReady(k.S(), 3)
    ensures k.tcb[3].priority == 3 && k.tcb[2].priority == 5
  {
    hide *;
    k := LowerFirst();
    k.SIs();
    ghost var s := k.S();
    var higher := k.RemoveFromEventList(0);
    k.SIs();
    WokenIs(s, k.S(), 3);
  }

  lemma WokenIs(s: Sched, s': Sched, t: nat)
    requires JustWoken(s, s', t)
    ensures IsReady(s', t) && t < |s.tcb| && s'.tcb == s.tcb[t := s.tcb[t].(event := Nowhere)]
  {
    hide OnReadyList, Shed, RoundsOn;
  }

  lemma FirstOfTwo(tcb: seq<Tcb>, o: Order, list: seq<nat>)
    requires |tcb| == 4 && tcb[3].priority == 3 && tcb[2].basePriority == 2 && o.odd == {2}
    requires list in {[3] + [2], [2] + [3]} && forall i :: 1 <= i < |list| ==> Before(tcb, o, list[0], list[i])
    ensures list == [3, 2]
  {
    assert Before(tcb, o, list[0], list[1]);
  }
}
