/** The order in which waiting tasks are woken. */
module KernelOrder {
  import opened Seqs
  import opened KernelRing
  import opened KernelSched

  /** `came` numbers the calls by which the tasks last went to sleep, `calls` counts these calls. A task is
      `odd` if its base priority was set while it had an inherited one. An event list is `stirred` if the rank of
      a task was changed on it since a task last joined it when it was empty. */
  datatype Order = Order(came: seq<nat>, calls: nat, odd: set<nat>, stirred: set<nat>)

  /** The priority that counts on event lists. */
  ghost function Rank(tcb: seq<Tcb>, o: Order, t: nat): nat
    requires t < |tcb|
  {
    if t in o.odd then tcb[t].basePriority else tcb[t].priority
  }

  /** Task `t` is woken before `u`: its rank is higher, or they are equal and it came first. */
  ghost predicate Before(tcb: seq<Tcb>, o: Order, t: nat, u: nat) {
    && t < |tcb| && u < |tcb| && t < |o.came| && u < |o.came|
    && (Rank(tcb, o, t) > Rank(tcb, o, u) || (Rank(tcb, o, t) == Rank(tcb, o, u) && o.came[t] < o.came[u]))
  }

  ghost predicate InOrder(tcb: seq<Tcb>, o: Order, list: seq<nat>) {
    forall i, j :: 0 <= i < j < |list| ==> Before(tcb, o, list[i], list[j])
  }

  /** Task `t` is woken before `u` by a tick: it is due earlier, or they are due at once and it came first. */
  ghost predicate DueFirst(tcb: seq<Tcb>, came: seq<nat>, t: nat, u: nat) {
    && t < |tcb| && u < |tcb| && t < |came| && u < |came|
    && (tcb[t].value < tcb[u].value || (tcb[t].value == tcb[u].value && came[t] < came[u]))
  }

  ghost predicate DueInOrder(tcb: seq<Tcb>, came: seq<nat>, list: seq<nat>) {
    forall i, j :: 0 <= i < j < |list| ==> DueFirst(tcb, came, list[i], list[j])
  }

  /** Each event item has the value that puts the task where its rank belongs. */
  ghost predicate RanksOK(tcb: seq<Tcb>, o: Order) {
    && |o.came| == |tcb| && (forall t :: t in o.odd ==> t < |tcb|)
    && forall t :: 0 <= t < |tcb| ==> o.came[t] <= o.calls && tcb[t].eventValue + Rank(tcb, o, t) == 7
  }

  ghost predicate EventsInOrder(tcb: seq<Tcb>, events: seq<seq<nat>>, o: Order) {
    forall e :: 0 <= e < |events| && e !in o.stirred ==> InOrder(tcb, o, events[e])
  }

  ghost predicate OrderOK(s: Sched, w: Waits, o: Order) {
    && RanksOK(s.tcb, o) && EventsInOrder(s.tcb, w.events, o)
    && DueInOrder(s.tcb, o.came, s.delayed) && DueInOrder(s.tcb, o.came, s.overflow)
  }

  lemma OrderIs(s: Sched, w: Waits, o: Order)
    requires OrderOK(s, w, o)
    ensures RanksOK(s.tcb, o) && EventsInOrder(s.tcb, w.events, o)
    ensures DueInOrder(s.tcb, o.came, s.delayed) && DueInOrder(s.tcb, o.came, s.overflow)
    ensures |o.came| == |s.tcb|
  {
    hide EventsInOrder, DueInOrder;
  }

  lemma OrderIntro(s: Sched, w: Waits, o: Order)
    requires RanksOK(s.tcb, o) && EventsInOrder(s.tcb, w.events, o)
    requires DueInOrder(s.tcb, o.came, s.delayed) && DueInOrder(s.tcb, o.came, s.overflow)
    ensures OrderOK(s, w, o)
  {
  }

  // ---------- Leaving ----------

  /** What a task's place on the lists depends on. */
  ghost predicate Alike(a: Tcb, b: Tcb) {
    b == a.(event := b.event)
  }

  /** Where an item of the list without `t` was before. */
  ghost function Was(list: seq<nat>, t: nat, i: nat): nat {
    if t in list && i >= IndexOf(list, t) then i + 1 else i
  }

  lemma ShedAt(list: seq<nat>, list': seq<nat>, t: nat, i: nat)
    requires Shed(list, list', t) && i < |list'|
    ensures Was(list, t, i) < |list| && list'[i] == list[Was(list, t, i)]
  {
  }

  lemma WasGrows(list: seq<nat>, t: nat, i: nat, j: nat)
    requires i < j
    ensures Was(list, t, i) < Was(list, t, j)
  {
  }

  lemma ShedInOrder(tcb: seq<Tcb>, tcb': seq<Tcb>, o: Order, list: seq<nat>, list': seq<nat>, t: nat)
    requires InOrder(tcb, o, list) && Shed(list, list', t) && |tcb'| == |tcb|
    requires forall u :: 0 <= u < |tcb| ==> Alike(tcb[u], tcb'[u])
    ensures InOrder(tcb', o, list')
  {
    hide Shed, Was;
    forall i, j | 0 <= i < j < |list'| ensures Before(tcb', o, list'[i], list'[j]) {
      ShedAt(list, list', t, i);
      ShedAt(list, list', t, j);
      WasGrows(list, t, i, j);
      assert Before(tcb, o, list[Was(list, t, i)], list[Was(list, t, j)]);
    }
  }

  lemma ShedDue(tcb: seq<Tcb>, tcb': seq<Tcb>, came: seq<nat>, list: seq<nat>, list': seq<nat>, t: nat)
    requires DueInOrder(tcb, came, list) && Shed(list, list', t) && |tcb'| == |tcb|
    requires forall u :: 0 <= u < |tcb| ==> Alike(tcb[u], tcb'[u])
    ensures DueInOrder(tcb', came, list')
  {
    hide Shed, Was;
    forall i, j | 0 <= i < j < |list'| ensures DueFirst(tcb', came, list'[i], list'[j]) {
      ShedAt(list, list', t, i);
      ShedAt(list, list', t, j);
      WasGrows(list, t, i, j);
      assert DueFirst(tcb, came, list[Was(list, t, i)], list[Was(list, t, j)]);
    }
  }

  /** The event lists without `t`. */
  lemma LeftEvents(tcb: seq<Tcb>, w: Waits, t: nat)
    requires EventsOK(tcb, w) && t < |tcb|
    ensures |Left(tcb, w, t).events| == |w.events|
    ensures forall e :: 0 <= e < |w.events| ==> Shed(w.events[e], Left(tcb, w, t).events[e], t)
  {
    forall e | 0 <= e < |w.events| ensures t in w.events[e] <==> tcb[t].event == Waiting(e) {
      assert EventListOK(tcb, w.events[e], Waiting(e));
      assert EventAt(tcb, w, t);
    }
  }

  lemma RanksSame(tcb: seq<Tcb>, tcb': seq<Tcb>, o: Order)
    requires RanksOK(tcb, o) && |tcb'| == |tcb| && forall u :: 0 <= u < |tcb| ==> Alike(tcb[u], tcb'[u])
    ensures RanksOK(tcb', o)
  {
  }

  lemma ShedEvents(tcb: seq<Tcb>, tcb': seq<Tcb>, o: Order, events: seq<seq<nat>>, events': seq<seq<nat>>, t: nat)
    requires EventsInOrder(tcb, events, o) && |events'| == |events| && |tcb'| == |tcb|
    requires forall u :: 0 <= u < |tcb| ==> Alike(tcb[u], tcb'[u])
    requires forall e :: 0 <= e < |events| ==> Shed(events[e], events'[e], t)
    ensures EventsInOrder(tcb', events', o)
  {
    hide InOrder, Shed, Alike;
    forall e | 0 <= e < |events'| && e !in o.stirred ensures InOrder(tcb', o, events'[e]) {
      ShedInOrder(tcb, tcb', o, events[e], events'[e], t);
    }
  }

  /** A task that is woken, by its event or by its time, leaves the order of the others as it is. */
  lemma WokenOrder(s: Sched, w: Waits, o: Order, s': Sched, t: nat)
    requires OrderOK(s, w, o) && EventsOK(s.tcb, w) && JustWoken(s, s', t)
    ensures OrderOK(s', Left(s.tcb, w, t), o)
  {
    hide *;
    WokenShed(s, s', t);
    OrderIs(s, w, o);
    LeftEvents(s.tcb, w, t);
    RanksSame(s.tcb, s'.tcb, o);
    ShedEvents(s.tcb, s'.tcb, o, w.events, Left(s.tcb, w, t).events, t);
    ShedDue(s.tcb, s'.tcb, o.came, s.delayed, s'.delayed, t);
    ShedDue(s.tcb, s'.tcb, o.came, s.overflow, s'.overflow, t);
    OrderIntro(s', Left(s.tcb, w, t), o);
  }

  lemma WokenShed(s: Sched, s': Sched, t: nat)
    requires JustWoken(s, s', t)
    ensures t < |s.tcb| == |s'.tcb| && (forall u :: 0 <= u < |s.tcb| ==> Alike(s.tcb[u], s'.tcb[u]))
    ensures Shed(s.delayed, s'.delayed, t) && Shed(s.overflow, s'.overflow, t)
  {
    hide OnReadyList, Shed, RoundsOn;
  }

  // ---------- Ticks ----------

  /** At the wrap the two delayed lists change places. */
  lemma TickedOrder(s: Sched, w: Waits, o: Order)
    requires OrderOK(s, w, o)
    ensures OrderOK(Ticked(s), w, o)
  {
    hide EventsInOrder, DueInOrder, RanksOK;
  }

  /** The tasks that one tick wakes come in the order in which they went to sleep. */
  ghost predicate InCallOrder(came: seq<nat>, list: seq<nat>) {
    forall i, j :: 0 <= i < j < |list| && list[i] < |came| && list[j] < |came| ==> came[list[i]] < came[list[j]]
  }

  /** The tasks that have joined their rounds since `s`, in each round, are in the order of their calls. */
  ghost predicate JoinInCallOrder(s: Sched, s': Sched, came: seq<nat>) {
    forall q :: 0 <= q < |s.ready| && |Round(s, q)| <= |Round(s', q)| ==>
      InCallOrder(came, Round(s', q)[|Round(s, q)|..])
  }

  lemma {:induction false} OfPriorityIn(tcb: seq<Tcb>, list: seq<nat>, q: nat, came: seq<nat>)
    requires InCallOrder(came, list)
    ensures InCallOrder(came, OfPriority(tcb, list, q))
    ensures forall u :: u in OfPriority(tcb, list, q) ==> u in list
  {
    if list != [] {
      var init, t := list[..|list| - 1], list[|list| - 1];
      OfPriorityIn(tcb, init, q, came);
      var v, v' := OfPriority(tcb, init, q), OfPriority(tcb, list, q);
      assert v' == v || v' == v + [t];
      hide OfPriority;
      forall i, j | 0 <= i < j < |v'| && v'[i] < |came| && v'[j] < |came| ensures came[v'[i]] < came[v'[j]] {
        if j == |v| {
          assert v[i] in init;
          var k :| 0 <= k < |init| && init[k] == v[i];
          assert list[k] == v[i] && list[|list| - 1] == t;
        }
      }
    }
  }

  lemma HeadsInCallOrder(s: Sched, s': Sched, w: Waits, o: Order, n: nat)
    requires Inv(s, -1) && OrderOK(s, w, o) && HeadsWoken(s, s', n)
    ensures JoinInCallOrder(s, s', o.came)
  {
    var list := s.delayed[..n];
    forall i, j | 0 <= i < j < |list| && list[i] < |o.came| && list[j] < |o.came|
      ensures o.came[list[i]] < o.came[list[j]]
    {
      assert TaskOK(s, s.delayed[i], -1) && TaskOK(s, s.delayed[j], -1);
      assert s.delayed[i] in s.delayed && s.delayed[j] in s.delayed;
      assert DueFirst(s.tcb, o.came, s.delayed[i], s.delayed[j]);
    }
    assert InCallOrder(o.came, list);
    hide InCallOrder, Round, Inv, OrderOK;
    forall q | 0 <= q < |s.ready| && |Round(s, q)| <= |Round(s', q)|
      ensures InCallOrder(o.came, Round(s', q)[|Round(s, q)|..])
    {
      OfPriorityIn(s.tcb, list, q, o.came);
      assert Round(s', q)[|Round(s, q)|..] == OfPriority(s.tcb, list, q);
    }
  }

  lemma TickDone(s: Sched, s1: Sched, w: Waits, s': Sched, o: Order, n: nat)
    requires s1 == Ticked(s) && Inv(s, -1) && NoneDue(s) && Inv(s1, -1) && OrderOK(s1, w, o)
    requires Woken(s1, s') && HeadsWoken(s1, s', n) && Inv(s', -1) && NoneDue(s')
    ensures Passed(s, s') && Now(s') == Now(s) + 1 && JoinInCallOrder(s, s', o.came)
    ensures forall u :: 0 <= u < |s.tcb| && IsBlocked(s, u) ==> (IsReady(s', u) <==> s.wake[u] == Now(s'))
  {
    hide *;
    TickedRounds(s);
    HeadsGrow(s1, s', n);
    SameGrows(s, s1, s');
    TickPassed(s, s');
    HeadsInCallOrder(s1, s', w, o, n);
    TickJoins(s, s1, s', o.came);
  }

  lemma SameGrows(a: Sched, b: Sched, c: Sched)
    requires RoundsSame(a, b) && RoundsGrow(b, c)
    ensures RoundsGrow(a, c)
  {
    hide Round;
  }

  lemma TickJoins(s: Sched, s1: Sched, s': Sched, came: seq<nat>)
    requires RoundsSame(s, s1) && JoinInCallOrder(s1, s', came)
    ensures JoinInCallOrder(s, s', came)
  {
    hide Round, InCallOrder;
  }

  /** The event item of the first task of a list goes to the pending list. */
  lemma PendOrder(s: Sched, w: Waits, o: Order, t: nat)
    requires OrderOK(s, w, o) && EventsOK(s.tcb, w) && t < |s.tcb|
    ensures var w' := Left(s.tcb, w, t);
            forall pending :: OrderOK(s.(tcb := s.tcb[t := s.tcb[t].(event := Pending)]), w'.(pending := pending), o)
  {
    var s', w' := s.(tcb := s.tcb[t := s.tcb[t].(event := Pending)]), Left(s.tcb, w, t);
    JoinedUrgency(s.tcb, t, Pending);
    assert forall u :: 0 <= u < |s.tcb| ==> Alike(s.tcb[u], s'.tcb[u]);
    hide *;
    OrderIs(s, w, o);
    LeftEvents(s.tcb, w, t);
    RanksSame(s.tcb, s'.tcb, o);
    ShedEvents(s.tcb, s'.tcb, o, w.events, w'.events, t);
    DueSame(s.tcb, s'.tcb, o.came, s.delayed);
    DueSame(s.tcb, s'.tcb, o.came, s.overflow);
    forall pending ensures OrderOK(s', w'.(pending := pending), o) { OrderIntro(s', w'.(pending := pending), o); }
  }

  // ---------- Going to sleep ----------

  /** The next call that puts a task to sleep is made by `t`. */
  ghost function Calling(o: Order, t: nat): Order
    requires t < |o.came|
  {
    o.(came := o.came[t := o.calls + 1], calls := o.calls + 1)
  }

  /** Nobody came later. */
  ghost predicate Latest(o: Order, t: nat) {
    t < |o.came| && forall u :: 0 <= u < |o.came| && u != t ==> o.came[u] < o.came[t]
  }

  lemma CallingOrder(s: Sched, w: Waits, o: Order, t: nat)
    requires OrderOK(s, w, o) && t < |s.tcb| && t !in s.delayed && t !in s.overflow
    requires forall e :: 0 <= e < |w.events| ==> t !in w.events[e]
    ensures OrderOK(s, w, Calling(o, t)) && Latest(Calling(o, t), t)
  {
    var o' := Calling(o, t);
    forall e | 0 <= e < |w.events| && e !in o'.stirred ensures InOrder(s.tcb, o', w.events[e]) {
      assert InOrder(s.tcb, o, w.events[e]);
      forall i, j | 0 <= i < j < |w.events[e]| ensures Before(s.tcb, o', w.events[e][i], w.events[e][j]) {
        assert Before(s.tcb, o, w.events[e][i], w.events[e][j]);
        assert w.events[e][i] in w.events[e] && w.events[e][j] in w.events[e];
      }
    }
    CallingDue(s.tcb, o, s.delayed, t);
    CallingDue(s.tcb, o, s.overflow, t);
    hide InOrder, DueInOrder;
  }

  lemma CallingDue(tcb: seq<Tcb>, o: Order, list: seq<nat>, t: nat)
    requires DueInOrder(tcb, o.came, list) && t < |o.came| && t !in list
    ensures DueInOrder(tcb, Calling(o, t).came, list)
  {
    forall i, j | 0 <= i < j < |list| ensures DueFirst(tcb, Calling(o, t).came, list[i], list[j]) {
      assert DueFirst(tcb, o.came, list[i], list[j]);
      assert list[i] in list && list[j] in list;
    }
  }

  /** Insertion by value puts a task behind its equals, who came before it. */
  lemma DueInserted(tcb: seq<Tcb>, o: Order, list: seq<nat>, t: nat)
    requires DueInOrder(tcb, o.came, list) && t < |tcb| == |o.came| && Latest(o, t) && t !in list && InRange(tcb, list)
    ensures DueInOrder(tcb, o.came, Inserted(tcb, list, t))
  {
    var p, list' := Position(Values(tcb, list), tcb[t].value), Inserted(tcb, list, t);
    assert list' == list[..p] + [t] + list[p..];
    hide Inserted, Values, Position;
    forall i, j | 0 <= i < j < |list'| ensures DueFirst(tcb, o.came, list'[i], list'[j]) {
      if i != p && j != p {
        assert DueFirst(tcb, o.came, list[if i < p then i else i - 1], list[if j < p then j else j - 1]);
      } else if j == p {
        assert list[i] in list;
      } else if j - 1 > p {
        assert DueFirst(tcb, o.came, list[p], list[j - 1]);
      }
    }
  }

  /** Values matter on the list only. */
  lemma DueSame(tcb: seq<Tcb>, tcb': seq<Tcb>, came: seq<nat>, list: seq<nat>)
    requires DueInOrder(tcb, came, list) && |tcb'| >= |tcb|
    requires forall u :: u in list && u < |tcb| ==> tcb'[u].value == tcb[u].value
    ensures DueInOrder(tcb', came, list)
  {
    forall i, j | 0 <= i < j < |list| ensures DueFirst(tcb', came, list[i], list[j]) {
      assert DueFirst(tcb, came, list[i], list[j]);
      assert list[i] in list && list[j] in list;
    }
  }

  lemma SleptOrder(s0: Sched, s1: Sched, w: Waits, o: Order, t: nat, ticks: nat)
    requires OrderOK(s0, w, o) && s1.tcb == s0.tcb && Latest(o, t) && Inv(s1, t) && t < |s1.tcb|
    requires Shed(s0.delayed, s1.delayed, t) && Shed(s0.overflow, s1.overflow, t)
    ensures t < |s1.wake| && OrderOK(Slept(s1, t, ticks), w, o)
  {
    assert TaskOK(s1, t, t) && t !in s1.delayed && t !in s1.overflow && t < |s1.wake|;
    var tcb' := WakeSet(s1, t, ticks).tcb;
    assert InRange(tcb', s1.delayed) && InRange(tcb', s1.overflow);
    assert |tcb'| == |s1.tcb| && forall u :: 0 <= u < |tcb'| && u != t ==> tcb'[u] == s1.tcb[u];
    SleptLists(s1, t, ticks);
    hide *;
    OrderIs(s0, w, o);
    WakeSetRanks(s1, t, ticks);
    SlumberRanks(s1.tcb, tcb', w, o);
    Alikes(s1.tcb);
    ShedDue(s0.tcb, s1.tcb, o.came, s0.delayed, s1.delayed, t);
    ShedDue(s0.tcb, s1.tcb, o.came, s0.overflow, s1.overflow, t);
    DueSame(s1.tcb, tcb', o.came, s1.delayed);
    DueSame(s1.tcb, tcb', o.came, s1.overflow);
    DueInserted(tcb', o, s1.delayed, t);
    DueInserted(tcb', o, s1.overflow, t);
    OrderIntro(Slept(s1, t, ticks), w, o);
  }

  lemma Alikes(tcb: seq<Tcb>)
    ensures forall u :: 0 <= u < |tcb| ==> Alike(tcb[u], tcb[u])
  {
  }

  lemma SleptLists(s: Sched, t: nat, ticks: nat)
    requires t < |s.tcb| && t < |s.wake| && InRange(WakeSet(s, t, ticks).tcb, s.delayed)
    requires InRange(WakeSet(s, t, ticks).tcb, s.overflow)
    ensures var s', tcb' := Slept(s, t, ticks), WakeSet(s, t, ticks).tcb;
            && s'.tcb == tcb'
            && s'.delayed in {s.delayed, Inserted(tcb', s.delayed, t)}
            && s'.overflow in {s.overflow, Inserted(tcb', s.overflow, t)}
  {
    hide Inserted;
  }

  lemma WakeSetRanks(s: Sched, t: nat, ticks: nat)
    requires t < |s.tcb| && t < |s.wake|
    ensures var tcb' := WakeSet(s, t, ticks).tcb;
            |tcb'| == |s.tcb| && forall u :: 0 <= u < |tcb'| ==> SameUrgency(s.tcb[u], tcb'[u])
  {
  }

  /** What a task's place on event lists depends on. */
  ghost predicate SameUrgency(a: Tcb, b: Tcb) {
    b.priority == a.priority && b.basePriority == a.basePriority && b.eventValue == a.eventValue
  }

  lemma SlumberRanks(tcb: seq<Tcb>, tcb': seq<Tcb>, w: Waits, o: Order)
    requires RanksOK(tcb, o) && EventsInOrder(tcb, w.events, o)
    requires |tcb'| == |tcb| && forall u :: 0 <= u < |tcb'| ==> SameUrgency(tcb[u], tcb'[u])
    ensures RanksOK(tcb', o) && EventsInOrder(tcb', w.events, o)
  {
    forall e | 0 <= e < |w.events| && e !in o.stirred ensures InOrder(tcb', o, w.events[e]) {
      assert InOrder(tcb, o, w.events[e]);
      forall i, j | 0 <= i < j < |w.events[e]| ensures Before(tcb', o, w.events[e][i], w.events[e][j]) {
        assert Before(tcb, o, w.events[e][i], w.events[e][j]);
      }
    }
  }

  // ---------- Joining an event list ----------

  /** A list that is joined when it is empty is in order again. */
  ghost function Joining(o: Order, w: Waits, e: nat): Order {
    if e < |w.events| && w.events[e] == [] then o.(stirred := o.stirred - {e}) else o
  }

  lemma InOrderSorted(tcb: seq<Tcb>, o: Order, list: seq<nat>)
    requires RanksOK(tcb, o) && InOrder(tcb, o, list) && InRange(tcb, list)
    ensures Sorted(EventValues(tcb, list))
  {
    var v := EventValues(tcb, list);
    forall i, j | 0 <= i < j < |v| ensures v[i] <= v[j] {
      assert Before(tcb, o, list[i], list[j]);
    }
  }

  lemma JoinedPair(tcb: seq<Tcb>, o: Order, list: seq<nat>, t: nat, p: nat, v: seq<nat>, i: nat, j: nat)
    requires RanksOK(tcb, o) && InOrder(tcb, o, list) && InRange(tcb, list) && t < |tcb| && Latest(o, t) && t !in list
    requires |v| == |list| && p <= |v| && forall k :: 0 <= k < |v| ==> v[k] == tcb[list[k]].eventValue
    requires (forall k :: 0 <= k < p ==> v[k] <= tcb[t].eventValue)
             && forall k :: p <= k < |v| ==> v[k] > tcb[t].eventValue
    requires i < j <= |list|
    ensures var list' := list[..p] + [t] + list[p..]; Before(tcb, o, list'[i], list'[j])
  {
    var list' := list[..p] + [t] + list[p..];
    if i != p && j != p {
      assert Before(tcb, o, list[if i < p then i else i - 1], list[if j < p then j else j - 1]);
    } else if j == p {
      assert list[i] in list && v[i] <= tcb[t].eventValue;
    } else {
      assert v[j - 1] > tcb[t].eventValue;
    }
  }

  /** Insertion by value puts a task behind all of its rank or a higher one, and before all of a lower one. */
  lemma JoinedInOrder(tcb: seq<Tcb>, o: Order, list: seq<nat>, t: nat)
    requires RanksOK(tcb, o) && InOrder(tcb, o, list) && InRange(tcb, list) && t < |tcb| && Latest(o, t) && t !in list
    ensures var p := Position(EventValues(tcb, list), tcb[t].eventValue);
            InOrder(tcb, o, list[..p] + [t] + list[p..])
  {
    var v := EventValues(tcb, list);
    InOrderSorted(tcb, o, list);
    InsertKeepsSorted(v, tcb[t].eventValue);
    var p := Position(v, tcb[t].eventValue);
    var list' := list[..p] + [t] + list[p..];
    hide Position, EventValues, Sorted;
    forall i, j | 0 <= i < j < |list'| ensures Before(tcb, o, list'[i], list'[j]) {
      JoinedPair(tcb, o, list, t, p, v, i, j);
    }
  }

  lemma JoinedOrder(s: Sched, w: Waits, o: Order, e: nat, t: nat)
    requires OrderOK(s, w, o) && EventsOK(s.tcb, w) && t < |s.tcb| && s.tcb[t].event == Nowhere && e < |w.events|
    requires Latest(o, t)
    ensures OrderOK(s.(tcb := s.tcb[t := s.tcb[t].(event := Waiting(e))]), Joined(s.tcb, w, e, t), Joining(o, w, e))
  {
    var tcb', w', o' := s.tcb[t := s.tcb[t].(event := Waiting(e))], Joined(s.tcb, w, e, t), Joining(o, w, e);
    assert EventListOK(s.tcb, w.events[e], Waiting(e));
    assert InRange(s.tcb, w.events[e]) && t !in w.events[e];
    JoinedIs(s.tcb, w, e, t);
    hide *;
    OrderIs(s, w, o);
    JoinedLists(s.tcb, w, o, w', e, t);
    JoiningRanks(s.tcb, w, o, e);
    JoinedUrgency(s.tcb, t, Waiting(e));
    SlumberRanks(s.tcb, tcb', w', o');
    DueSame(s.tcb, tcb', o.came, s.delayed);
    DueSame(s.tcb, tcb', o.came, s.overflow);
    OrderIntro(s.(tcb := tcb'), w', o');
  }

  lemma JoinedUrgency(tcb: seq<Tcb>, t: nat, place: EventPlace)
    requires t < |tcb|
    ensures var tcb' := tcb[t := tcb[t].(event := place)];
            && (forall u :: 0 <= u < |tcb'| ==> SameUrgency(tcb[u], tcb'[u]))
            && forall u :: 0 <= u < |tcb| ==> tcb'[u].value == tcb[u].value
  {
  }

  lemma JoiningRanks(tcb: seq<Tcb>, w: Waits, o: Order, e: nat)
    requires RanksOK(tcb, o)
    ensures RanksOK(tcb, Joining(o, w, e)) && Joining(o, w, e).came == o.came
  {
  }

  lemma JoinedLists(tcb: seq<Tcb>, w: Waits, o: Order, w': Waits, e: nat, t: nat)
    requires RanksOK(tcb, o) && EventsInOrder(tcb, w.events, o) && e < |w.events| && InRange(tcb, w.events[e])
    requires t < |tcb| && t !in w.events[e] && Latest(o, t)
    requires var list, p := w.events[e], Position(EventValues(tcb, w.events[e]), tcb[t].eventValue);
             w' == w.(events := w.events[e := list[..p] + [t] + list[p..]])
    ensures EventsInOrder(tcb, w'.events, Joining(o, w, e))
  {
    var o' := Joining(o, w, e);
    forall k | 0 <= k < |w.events| && k !in o'.stirred ensures InOrder(tcb, o', w'.events[k]) {
      if w.events[k] == [] { assert InOrder(tcb, o, w.events[k]); }
      assert InOrder(tcb, o, w.events[k]);
      if k == e { JoinedInOrder(tcb, o, w.events[e], t); }
      OrderStirred(tcb, o, o', w'.events[k]);
    }
  }

  lemma OrderStirred(tcb: seq<Tcb>, o: Order, o': Order, list: seq<nat>)
    requires o' == o.(stirred := o'.stirred)
    ensures InOrder(tcb, o', list) <==> InOrder(tcb, o, list)
  {
    if InOrder(tcb, o, list) {
      forall i, j | 0 <= i < j < |list| ensures Before(tcb, o', list[i], list[j]) {
        assert Before(tcb, o, list[i], list[j]);
      }
    }
    if InOrder(tcb, o', list) {
      forall i, j | 0 <= i < j < |list| ensures Before(tcb, o, list[i], list[j]) {
        assert Before(tcb, o', list[i], list[j]);
      }
    }
  }

  lemma LatestStays(o: Order, w: Waits, e: nat, t: nat)
    requires Latest(o, t)
    ensures Latest(Joining(o, w, e), t)
  {
  }

  lemma OnNoList(s: Sched, w: Waits, o: Order, t: nat)
    requires EventsOK(s.tcb, w) && t < |s.tcb| && s.tcb[t].event == Nowhere && !IsBlocked(s, t) && OrderOK(s, w, o)
    ensures (forall e :: 0 <= e < |w.events| ==> t !in w.events[e]) && t !in s.delayed && t !in s.overflow
    ensures t < |o.came|
  {
    forall e | 0 <= e < |w.events| ensures t !in w.events[e] { assert EventListOK(s.tcb, w.events[e], Waiting(e)); }
  }

  /** Ready lists are no concern of the sleepers' order. */
  lemma SameSleepers(s: Sched, s': Sched, w: Waits, o: Order)
    requires OrderOK(s, w, o) && s' == s.(top := s'.top, ready := s'.ready)
    ensures OrderOK(s', w, o)
  {
  }

  // ---------- Changing priorities ----------

  /** Task `t` has been given a priority: a list where its rank changes is stirred. */
  ghost function Given(o: Order, tcb: seq<Tcb>, tcb': seq<Tcb>, t: nat, odd: bool): (o': Order)
    requires t < |tcb| && t < |tcb'|
  {
    var o' := o.(odd := if odd then o.odd + {t} else o.odd - {t});
    if tcb[t].event.Waiting? && Rank(tcb', o', t) != Rank(tcb, o, t)
    then o'.(stirred := o'.stirred + {tcb[t].event.list}) else o'
  }

  lemma GivenOrder(s: Sched, w: Waits, o: Order, t: nat, changed: Tcb, odd: bool)
    requires OrderOK(s, w, o) && EventsOK(s.tcb, w) && t < |s.tcb| && Adjusts(s.tcb[t], changed)
    requires changed.eventValue + (if odd then changed.basePriority else changed.priority) == 7
    ensures var tcb' := s.tcb[t := changed];
            OrderOK(s.(tcb := tcb'), w, Given(o, s.tcb, tcb', t, odd))
  {
    var tcb' := s.tcb[t := changed];
    var o' := Given(o, s.tcb, tcb', t, odd);
    GivenLists(s.tcb, w, o, t, changed, odd);
    DueSame(s.tcb, tcb', o.came, s.delayed);
    DueSame(s.tcb, tcb', o.came, s.overflow);
    hide DueInOrder, EventsInOrder, EventsOK;
  }

  lemma GivenLists(tcb: seq<Tcb>, w: Waits, o: Order, t: nat, changed: Tcb, odd: bool)
    requires EventsInOrder(tcb, w.events, o) && EventsOK(tcb, w) && t < |tcb|
    ensures var tcb' := tcb[t := changed]; EventsInOrder(tcb', w.events, Given(o, tcb, tcb', t, odd))
  {
    var tcb' := tcb[t := changed];
    var o' := Given(o, tcb, tcb', t, odd);
    forall e | 0 <= e < |w.events| && e !in o'.stirred ensures InOrder(tcb', o', w.events[e]) {
      assert InOrder(tcb, o, w.events[e]) && EventListOK(tcb, w.events[e], Waiting(e));
      var list := w.events[e];
      forall i, j | 0 <= i < j < |list| ensures Before(tcb', o', list[i], list[j]) {
        assert Before(tcb, o, list[i], list[j]);
      }
    }
  }

  /** The sleepers are those of `s0` with `t` changed; `t` was ready and is again. */
  lemma MovedOrder(s0: Sched, s1: Sched, s2: Sched, s3: Sched, w: Waits, o: Order, t: nat)
    requires t < |s0.tcb| && t < |s2.tcb| && !IsBlocked(s0, t) && s1.tcb == s0.tcb
    requires OrderOK(s0.(tcb := s0.tcb[t := s2.tcb[t]]), w, o) && s2 == s1.(tcb := s0.tcb[t := s2.tcb[t]])
    requires Shed(s0.delayed, s1.delayed, t) && Shed(s0.overflow, s1.overflow, t)
    requires s3 == s2.(top := s3.top, ready := s3.ready)
    ensures OrderOK(s3, w, o)
  {
  }

  // ---------- Creating tasks ----------

  ghost function Starting(o: Order): Order { o.(came := o.came + [0]) }

  lemma AddedOrder(s: Sched, s': Sched, w: Waits, o: Order)
    requires OrderOK(s, w, o) && |s'.tcb| == |s.tcb| + 1
    requires s'.tcb[..|s.tcb|] == s.tcb && s'.delayed == s.delayed && s'.overflow == s.overflow
    requires s'.tcb[|s.tcb|].eventValue + s'.tcb[|s.tcb|].priority == 7
    ensures OrderOK(s', w, Starting(o))
  {
    var o' := Starting(o);
    assert forall u :: 0 <= u < |s.tcb| ==> s'.tcb[u] == s.tcb[u];
    forall e | 0 <= e < |w.events| && e !in o.stirred ensures InOrder(s'.tcb, o', w.events[e]) {
      assert InOrder(s.tcb, o, w.events[e]);
      forall i, j | 0 <= i < j < |w.events[e]| ensures Before(s'.tcb, o', w.events[e][i], w.events[e][j]) {
        assert Before(s.tcb, o, w.events[e][i], w.events[e][j]);
      }
    }
    AddedDue(s, s', o, s.delayed);
    AddedDue(s, s', o, s.overflow);
    hide InOrder, DueInOrder;
  }

  lemma AddedDue(s: Sched, s': Sched, o: Order, list: seq<nat>)
    requires DueInOrder(s.tcb, o.came, list) && |s'.tcb| == |s.tcb| + 1 && s'.tcb[..|s.tcb|] == s.tcb
    ensures DueInOrder(s'.tcb, Starting(o).came, list)
  {
    assert forall u :: 0 <= u < |s.tcb| ==> s'.tcb[u] == s.tcb[u];
    forall i, j | 0 <= i < j < |list| ensures DueFirst(s'.tcb, Starting(o).came, list[i], list[j]) {
      assert DueFirst(s.tcb, o.came, list[i], list[j]);
    }
  }

  lemma InitialOrder(s: Sched, w: Waits, o: Order)
    requires s.tcb == [Tcb(0, 0, 0, 7, Nowhere)] && s.delayed == s.overflow == [] && o == Order([0], 0, {}, {})
    requires forall e :: 0 <= e < |w.events| ==> w.events[e] == []
    ensures OrderOK(s, w, o)
  {
  }

  // ---------- The law ----------

  /** Nobody on the list has a higher priority than its first task, and those of the same priority came later. */
  ghost predicate FirstHighest(tcb: seq<Tcb>, came: seq<nat>, list: seq<nat>) {
    forall i :: 1 <= i < |list| && list[0] < |tcb| && list[i] < |tcb| && list[0] < |came| && list[i] < |came| ==>
      || tcb[list[0]].priority > tcb[list[i]].priority
      || (tcb[list[0]].priority == tcb[list[i]].priority && came[list[0]] < came[list[i]])
  }

  /** As long as no rank was changed on the list, its first task has the highest rank, and came first among
      its equals. */
  lemma NextIsFirst(s: Sched, w: Waits, o: Order, e: nat)
    requires OrderOK(s, w, o) && e < |w.events|
    ensures e !in o.stirred && (forall u :: u in w.events[e] ==> u !in o.odd) ==>
              FirstHighest(s.tcb, o.came, w.events[e])
    ensures e !in o.stirred ==> forall i :: 1 <= i < |w.events[e]| ==> Before(s.tcb, o, w.events[e][0], w.events[e][i])
  {
    if e !in o.stirred {
      var list := w.events[e];
      assert InOrder(s.tcb, o, list);
      forall i | 1 <= i < |list| ensures Before(s.tcb, o, list[0], list[i]) && list[0] in list && list[i] in list {}
    }
  }
}
