/** The scheduler: tasks become ready, run, sleep and are woken by ticks and events. */
module KernelTasks {
  import opened Seqs
  import opened KernelRing
  import opened KernelSched
  import opened KernelOrder

  /** The task control blocks and the variables of `tasks.c`; tasks are numbered. */
  class Kernel {
    var tcb: seq<Tcb>
    var ready: seq<Ring<nat>>
    var top: nat
    var delayed: seq<nat>
    var overflow: seq<nat>
    var pending: Ring<nat>
    var events: seq<seq<nat>>
    var tick: nat
    var overflows: nat
    var suspended: nat
    var missed: nat
    var missedYield: bool
    var current: nat
    var running: bool
    const idle: nat

    ghost var epoch: nat       // overflows of the tick count, without bound
    ghost var wake: seq<nat>   // wake times, without bound
    ghost var clock: nat       // tick interrupts so far
    ghost var order: Order     // who went to sleep before whom

    ghost function S(): Sched
      reads `tcb, `ready, `top, `delayed, `overflow, `tick, `epoch, `wake
    {
      Sched(tcb, ready, top, delayed, overflow, tick, epoch, wake)
    }

    ghost function W(): Waits
      reads `events, `pending
    {
      Waits(events, pending)
    }

    /** What holds whenever no task is being moved. */
    ghost predicate Sound()
      reads `tcb, `ready, `top, `delayed, `overflow, `tick, `epoch, `wake, `events, `pending, `current, `order
    {
      && Inv(S(), -1) && EventsOK(tcb, W()) && EventBlocked(S(), -1) && OrderOK(S(), W(), order)
      && current < |tcb| && IsReady(S(), idle)
    }

    /** What holds between calls. No tick is lost: those processed and those still missed add
        up to the real ones. */
    ghost predicate Valid()
      reads this
    {
      && Sound() && NoneDue(S())
      && Now(S()) + missed == clock
      && overflows == epoch % 0x1_0000_0000
      && (suspended == 0 ==> missed == 0 && pending.items == [])
    }

    lemma SIs()
      ensures S() == Sched(tcb, ready, top, delayed, overflow, tick, epoch, wake) && W() == Waits(events, pending)
    {
    }

    lemma SoundIs()
      requires Sound()
      ensures Inv(S(), -1) && EventsOK(tcb, W()) && EventBlocked(S(), -1) && current < |tcb| && IsReady(S(), idle)
      ensures |wake| == |tcb| && |ready| == 7 && top < 7 && tick < 0x1_0000_0000 && OrderOK(S(), W(), order)
    {
    }

    lemma SoundIntro()
      requires Inv(S(), -1) && EventsOK(tcb, W()) && EventBlocked(S(), -1) && current < |tcb| && IsReady(S(), idle)
      requires OrderOK(S(), W(), order)
      ensures Sound()
    {
    }

    /** Take a task off the ready or delayed list it is on. */
    method TakeOffList(t: nat)
      requires t < |tcb| && Inv(S(), -1)
      modifies `ready, `delayed, `overflow
      ensures S() == TakenOff(old(S()), t) && Inv(S(), t) && OnlyOff(old(S()), S(), t)
      ensures LeftRounds(old(S()), S(), t)
      ensures Shed(old(delayed), delayed, t) && Shed(old(overflow), overflow, t)
    {
      TakeOff(S(), t);
      Whereabouts(S(), t);
      TakeOffRounds(S(), t);
      OffShed(S(), t);
      hide Inv, OnlyOff, Drop, IndexOf, LeftRounds, Shed;
      if t in delayed {
        delayed := Drop(delayed, t);
      } else if t in overflow {
        overflow := Drop(overflow, t);
      } else {
        var p := tcb[t].priority;
        ready := ready[p := ready[p].Remove(IndexOf(ready[p].items, t))];
      }
    }

    /** The end of the ready list of its priority. */
    method AddToReadyQueue(t: nat)
      requires t < |tcb| && Inv(S(), t)
      modifies `ready, `top
      ensures S() == Readied(old(S()), t) && Inv(S(), -1) && OnlyOn(old(S()), S(), t) && IsReady(S(), t)
      ensures RoundsOn(old(S()), S(), tcb[t].priority, t)
    {
      PutReady(S(), t);
      ReadyListOf(S(), t);
      PutReadyRounds(S(), t);
      hide Inv, OnlyOn, IsReady, RoundsOn;
      var p := tcb[t].priority;
      if p > top { top := p; }
      ready := ready[p := ready[p].InsertEnd(t)];
    }

    /** Take a task off the event or pending list it is on, if any. */
    method LeaveEventList(t: nat)
      requires t < |tcb| && EventsOK(tcb, W())
      modifies `tcb, `events, `pending
      ensures tcb == old(tcb)[t := old(tcb)[t].(event := Nowhere)] && EventsOK(tcb, W())
      ensures W() == Left(old(tcb), old(W()), t)
      ensures |events| == |old(events)|
    {
      LeaveKeeps(tcb, W(), t);
      EventPlaceOf(tcb, W(), t);
      hide EventsOK, Drop, IndexOf;
      match tcb[t].event {
        case Nowhere =>
        case Waiting(e) => events := events[e := Drop(events[e], t)];
        case Pending => pending := pending.Remove(IndexOf(pending.items, t));
      }
      tcb := tcb[t := tcb[t].(event := Nowhere)];
    }

    /** Ready a blocked task, whatever it waits for. */
    method Wake(t: nat)
      requires Sound() && t < |tcb| && IsBlocked(S(), t)
      modifies `tcb, `ready, `top, `delayed, `overflow, `events, `pending
      ensures Sound() && JustWoken(old(S()), S(), t) && W() == Left(old(tcb), old(W()), t)
      ensures old(t in delayed) ==> |delayed| < |old(delayed)|
      ensures |events| == |old(events)|
    {
      hide *;
      SoundIs();
      SIs();
      TakenShorter(S(), t);
      BlockedNotReady(S(), t);
      ghost var s0, w0 := S(), W();
      TakeOffList(t);
      SIs();
      ghost var s1 := S();
      LeaveEventList(t);
      SIs();
      ghost var s2 := S();
      Leaving(s1, s2, t);
      AddToReadyQueue(t);
      SIs();
      WakeKeeps(s0, s1, s2, S(), t, idle);
      WokenOrder(s0, w0, order, S(), t);
      SoundIntro();
    }

    // ---------- Ticks ----------

    /** Ready every task whose wake time has come; the delayed list is in wake-time order, so
        the first one that is not due ends the search. */
    method CheckDelayedTasks()
      requires Sound() && pending.items == []
      modifies `tcb, `ready, `top, `delayed, `overflow, `events, `pending
      ensures Sound() && NoneDue(S()) && Woken(old(S()), S()) && pending.items == []
      ensures |delayed| <= |old(delayed)| && HeadsWoken(old(S()), S(), |old(delayed)| - |delayed|)
      ensures |events| == |old(events)|
    {
      hide *;
      SoundIs();
      SIs();
      WokenSame(S());
      var stop := false;
      HeadFirst(S());
      while |delayed| > 0 && !stop
        invariant Sound() && Woken(old(S()), S()) && pending.items == [] && (stop || delayed == [] ==> NoneDue(S()))
        invariant |events| == |old(events)|
        invariant |delayed| <= |old(delayed)| && HeadsWoken(old(S()), S(), |old(delayed)| - |delayed|)
        decreases |delayed|, !stop
      {
        SoundIs();
        SIs();
        ghost var s, w := S(), W();
        HeadFirst(s);
        var t := delayed[0];
        if tick < tcb[t].value {
          stop := true;
        } else {
          InDelayed(s, t);
          Wake(t);
          SoundIs();
          SIs();
          LeftPending(s.tcb, w, t);
          WokenStep(old(S()), s, S(), t);
          HeadWoken(old(S()), s, S(), t, |old(delayed)| - |s.delayed|);
          HeadsLeft(old(S()), S(), |old(delayed)| - |s.delayed| + 1);
          HeadFirst(S());
        }
      }
    }

    /** The tick count goes up, and whoever is due is readied. */
    method NextTick()
      requires Sound() && NoneDue(S()) && overflows == epoch % 0x1_0000_0000 && pending.items == []
      modifies `tick, `overflows, `epoch, `tcb, `ready, `top, `delayed, `overflow, `events, `pending
      ensures Sound() && NoneDue(S()) && overflows == epoch % 0x1_0000_0000 && pending.items == []
      ensures Passed(old(S()), S()) && Now(S()) == old(Now(S())) + 1 && JoinInCallOrder(old(S()), S(), order.came)
      ensures tick == 0 ==> old(delayed) == []
      ensures forall u :: 0 <= u < |old(tcb)| && IsBlocked(old(S()), u) ==>
                (IsReady(S(), u) <==> old(wake)[u] == Now(S()))
      ensures |events| == |old(events)|
    {
      hide *;
      SoundIs();
      SIs();
      ghost var s0 := S();
      TickStep(s0);
      TickedIs(s0);
      tick := (tick + 1) % 0x1_0000_0000;
      if tick == 0 {
        delayed, overflow := overflow, delayed;
        overflows := (overflows + 1) % 0x1_0000_0000;
        epoch := epoch + 1;
      }
      SIs();
      TickedEvents(s0);
      TickedOrder(s0, W(), order);
      SoundIntro();
      ghost var s1, w1 := S(), W();
      CheckDelayedTasks();
      SoundIs();
      TickDone(s0, s1, w1, S(), order, |s1.delayed| - |delayed|);
      SIs();
    }

    /** One tick: processed at once, or counted for later while the scheduler is suspended. */
    method IncrementTick()
      requires Sound() && NoneDue(S()) && overflows == epoch % 0x1_0000_0000 && (suspended == 0 ==> pending.items == [])
      modifies `tick, `overflows, `epoch, `missed, `tcb, `ready, `top, `delayed, `overflow, `events, `pending
      ensures Sound() && NoneDue(S()) && overflows == epoch % 0x1_0000_0000 && (suspended == 0 ==> pending.items == [])
      ensures suspended > 0 ==> S() == old(S()) && W() == old(W()) && missed == old(missed) + 1
      ensures suspended == 0 ==> missed == old(missed) && Passed(old(S()), S()) && Now(S()) == old(Now(S())) + 1
      ensures suspended == 0 && tick == 0 ==> old(delayed) == []
      ensures suspended == 0 ==> JoinInCallOrder(old(S()), S(), order.came)
      ensures suspended == 0 ==>
                forall u :: 0 <= u < |old(tcb)| && IsBlocked(old(S()), u) ==>
                    (IsReady(S(), u) <==> old(wake)[u] == Now(S()))
      ensures |events| == |old(events)|
    {
      hide *;
      if suspended == 0 {
        NextTick();
      } else {
        missed := missed + 1;
        SIs();
      }
    }

    /** The tick interrupt, the only thing that moves real time. */
    method TickInterrupt()
      requires Valid()
      modifies `tick, `overflows, `epoch, `missed, `tcb, `ready, `top, `delayed, `overflow, `events, `pending, `clock
      ensures Valid() && clock == old(clock) + 1
      ensures suspended > 0 ==> S() == old(S()) && W() == old(W())
      ensures suspended == 0 ==> Passed(old(S()), S()) && Now(S()) == clock
      ensures suspended == 0 ==>
                forall u :: 0 <= u < |old(tcb)| && IsBlocked(old(S()), u) ==>
                    (IsReady(S(), u) <==> old(wake)[u] == Now(S()))
      ensures suspended == 0 ==> JoinInCallOrder(old(S()), S(), order.came)
      ensures |events| == |old(events)|
    {
      hide Inv, Sound, NoneDue, Passed, IsReady, IsBlocked, Now, Kernel.S, JoinInCallOrder;
      clock := clock + 1;
      IncrementTick();
    }

    // ---------- Suspending the scheduler ----------

    method SuspendAll()
      requires Valid()
      modifies `suspended
      ensures Valid() && suspended == old(suspended) + 1
    {
      suspended := suspended + 1;
    }

    /** Resume the scheduler: tasks whose event came meanwhile become ready, then the missed ticks
        are processed, so that time has caught up and nobody has overslept. */
    method ResumeAll() returns (yielded: bool)
      requires Valid() && suspended > 0
      modifies `suspended, `missedYield, `tick, `overflows, `epoch, `missed, `tcb, `ready, `top, `delayed, `overflow
      modifies `events, `pending
      ensures Valid() && suspended == old(suspended) - 1
      ensures suspended > 0 ==> S() == old(S()) && W() == old(W()) && missed == old(missed) && !yielded
      ensures suspended == 0 ==> Now(S()) == clock && wake == old(wake) && |tcb| == |old(tcb)|
      ensures suspended == 0 ==> forall u :: 0 <= u < |tcb| && u < |wake| ==>
                (IsReady(S(), u) <==> old(IsReady(S(), u)) || old(tcb)[u].event == Pending || wake[u] <= clock)
      ensures suspended == 0 ==>
                (yielded <==> old(missed) > 0 || old(missedYield) || Urgent(old(tcb), old(pending).items, current))
      ensures suspended == 0 ==> RoundsGrow(old(S()), S())
      ensures suspended == 0 ==> forall u :: 0 <= u < |tcb| ==> Eased(old(tcb)[u], tcb[u])
      ensures |events| == |old(events)|
      ensures missedYield == (suspended > 0 && old(missedYield))
    {
      hide *;
      ValidIs();
      SIs();
      yielded := false;
      suspended := suspended - 1;
      if suspended == 0 {
        yielded := CatchUp();
        if yielded || missedYield {
          yielded := true;
          missedYield := false;
        }
      }
      ValidIntro();
      SIs();
    }

    /** The work of the last resume: drain the pending list, then process the missed ticks. */
    method CatchUp() returns (yieldRequired: bool)
      requires Sound() && NoneDue(S()) && suspended == 0 && overflows == epoch % 0x1_0000_0000
      modifies `tick, `overflows, `epoch, `missed, `tcb, `ready, `top, `delayed, `overflow, `events, `pending
      ensures Sound() && NoneDue(S()) && missed == 0 && pending.items == [] && overflows == epoch % 0x1_0000_0000
      ensures Now(S()) == old(Now(S()) + missed) && wake == old(wake) && |tcb| == |old(tcb)|
      ensures forall u :: 0 <= u < |tcb| && u < |wake| ==>
                (IsReady(S(), u) <==> old(IsReady(S(), u)) || old(tcb)[u].event == Pending || wake[u] <= Now(S()))
      ensures yieldRequired <==> old(missed) > 0 || Urgent(old(tcb), old(pending).items, current)
      ensures RoundsGrow(old(S()), S())
      ensures forall u :: 0 <= u < |tcb| ==> Eased(old(tcb)[u], tcb[u])
      ensures |events| == |old(events)|
    {
      hide *;
      SIs();
      ghost var s0 := S();
      yieldRequired := DrainPending();
      SoundIs();
      SIs();
      ghost var s1, w1 := S(), W();
      DrainNoneDue(s0, s1);
      GainGrows(s0, s1, old(pending).items);
      if missed > 0 {
        ProcessMissed();
        yieldRequired := true;
      } else {
        PassedSame(S());
      }
      CaughtUp(s0, s1, w1, S());
      SIs();
    }

    lemma ValidIs()
      requires Valid()
      ensures Sound() && NoneDue(S()) && Now(S()) + missed == clock && overflows == epoch % 0x1_0000_0000
      ensures suspended == 0 ==> missed == 0 && pending.items == []
    {
    }

    lemma ValidIntro()
      requires Sound() && NoneDue(S()) && Now(S()) + missed == clock && overflows == epoch % 0x1_0000_0000
      requires suspended == 0 ==> missed == 0 && pending.items == []
      ensures Valid()
    {
    }

    /** Ready the tasks on the pending list, in the order they came. */
    method DrainPending() returns (yieldRequired: bool)
      requires Sound()
      modifies `tcb, `ready, `top, `delayed, `overflow, `events, `pending
      ensures Sound() && Drained(old(S()), S()) && pending.items == []
      ensures yieldRequired <==> Urgent(old(tcb), old(pending).items, current)
      ensures RoundsGain(old(S()), S(), old(pending).items)
      ensures |events| == |old(events)|
    {
      hide *;
      SoundIs();
      SIs();
      DrainSame(S(), pending.items);
      ghost var n := 0;
      yieldRequired := false;
      while |pending.items| > 0
        invariant Sound() && Drained(old(S()), S()) && n <= |old(pending).items|
        invariant pending.items == old(pending).items[n..]
        invariant RoundsGain(old(S()), S(), old(pending).items[..n]) && |events| == |old(events)|
        invariant yieldRequired || Urgent(tcb, pending.items, current)
              <==> Urgent(old(tcb), old(pending).items, current)
        decreases |pending.items|
      {
        SoundIs();
        SIs();
        ghost var s := S();
        PendingHead(tcb, W(), current);
        var t := pending.items[0];
        var urgent := tcb[t].priority >= tcb[current].priority;
        WaitingBlocked(s, t);
        Wake(t);
        SIs();
        DrainStep(old(S()), s, S(), old(pending).items, n, t);
        n := n + 1;
        WokenTcb(s, S(), t);
        if urgent { yieldRequired := true; }
      }
      assert old(pending).items[..n] == old(pending).items;
      NotUrgent(tcb, pending.items, current);
    }

    /** Process the ticks that were missed. */
    method ProcessMissed()
      requires Sound() && NoneDue(S()) && suspended == 0 && pending.items == [] && overflows == epoch % 0x1_0000_0000
      modifies `tick, `overflows, `epoch, `missed, `tcb, `ready, `top, `delayed, `overflow, `events, `pending
      ensures Sound() && NoneDue(S()) && pending.items == [] && overflows == epoch % 0x1_0000_0000
      ensures missed == 0 && Passed(old(S()), S()) && Now(S()) == old(Now(S())) + old(missed)
      ensures |events| == |old(events)|
    {
      hide *;
      SoundIs();
      SIs();
      PassedSame(S());
      while missed > 0
        invariant Sound() && NoneDue(S()) && pending.items == [] && overflows == epoch % 0x1_0000_0000
        invariant Passed(old(S()), S()) && Now(S()) + missed == old(Now(S())) + old(missed)
        invariant |events| == |old(events)|
        decreases missed
      {
        ghost var s := S();
        IncrementTick();
        PassedTrans(old(S()), s, S());
        missed := missed - 1;
      }
    }

    // ---------- Switching ----------

    /** Pick the next task: one of the highest priority that is ready, in turn among its equals. */
    method SwitchContext()
      requires Valid()
      modifies `missedYield, `top, `ready, `current
      ensures Valid()
      ensures suspended > 0 ==> missedYield && S() == old(S()) && current == old(current)
      ensures suspended == 0 ==> missedYield == old(missedYield) && IsReady(S(), current) && current < |tcb|
      ensures suspended == 0 ==> forall u :: 0 <= u < |tcb| ==>
                && (IsReady(S(), u) <==> old(IsReady(S(), u)))
                && (IsReady(S(), u) ==> tcb[u].priority <= tcb[current].priority)
      ensures suspended == 0 ==> top == tcb[current].priority < |ready| == |old(ready)|
                                 && old(ready)[top].Valid() && |old(ready)[top].items| > 0
                                 && ready == old(ready)[top := old(ready)[top].Next()]
                                 && current == ready[top].Current()
      ensures suspended == 0 ==> RoundsTurn(old(S()), S(), top) && current == Round(old(S()), top)[0]
    {
      hide *;
      ValidIs();
      SoundIs();
      SIs();
      if suspended != 0 {
        missedYield := true;
      } else {
        FindTop();
        ghost var s := S();
        SIs();
        TurnOf(s);
        ready := ready[top := ready[top].Next()];
        current := ready[top].Current();
        SIs();
        Turned(s, S());
        TurnFrom(old(S()), s, S(), top);
        assert current == S().ready[s.top].Current();
        SwitchedFrom(old(S()), s, S(), idle, W());
        SameSleepers(old(S()), S(), W(), order);
        SoundIntro();
      }
      ValidIntro();
      SIs();
    }

    /** Lower the top priority to the highest one that has a ready task. */
    method FindTop()
      requires Sound()
      modifies `top
      ensures Inv(S(), -1) && S() == old(S()).(top := top) && top < |ready| && ready[top].items != []
    {
      hide *;
      SoundIs();
      SIs();
      ReadySomewhere(S(), idle);
      while ready[top].items == []
        invariant Inv(S(), -1) && S() == old(S()).(top := top) && top < |ready| == 7
        invariant exists p :: 0 <= p <= top && ready[p].items != []
        decreases top
      {
        SIs();
        LowerTop(S());
        top := top - 1;
        SIs();
      }
    }

    // ---------- Blocking ----------

    /** The current task goes from its ready list to the delayed list of the epoch it wakes in. */
    method Sleep(ticks: nat)
      requires Inv(S(), -1) && EventsOK(tcb, W()) && EventBlocked(S(), current) && NoneDue(S())
      requires current < |tcb| && 1 <= ticks < 0x1_0000_0000 && OrderOK(S(), W(), order) && Latest(order, current)
      modifies `tcb, `ready, `delayed, `overflow, `wake
      ensures Inv(S(), -1) && EventsOK(tcb, W()) && EventBlocked(S(), -1) && NoneDue(S())
      ensures JustSlept(old(S()), S(), current, ticks)
      ensures OrderOK(S(), W(), order)
    {
      hide *;
      SIs();
      ghost var s0 := S();
      InvIs(s0, -1);
      TakeOffList(current);
      SIs();
      ghost var s1 := S();
      OffNoneDue(s0, s1, current);
      PutAsleep(s1, current, ticks);
      SleptOrder(s0, s1, W(), order, current, ticks);
      SleptFields(s1, current, ticks);
      var value := (tick + ticks) % 0x1_0000_0000;
      tcb := tcb[current := tcb[current].(value := value)];
      wake := wake[current := epoch * 0x1_0000_0000 + tick + ticks];
      if value < tick {
        overflow := InsertedIn(tcb, overflow, current);
      } else {
        delayed := InsertedIn(tcb, delayed, current);
      }
      SIs();
      NowIs(s1);
      Asleep(s0, s1, S(), current, ticks);
      EventsSame(s0.tcb, tcb, W());
    }

    /** What `vTaskDelay` does to a task between suspending and resuming the scheduler. */
    method DelayCurrent(ticks: nat)
      requires Valid() && suspended > 0 && current != idle && IsReady(S(), current) && 1 <= ticks < 0x1_0000_0000
      modifies `tcb, `ready, `delayed, `overflow, `wake, `order
      ensures Valid() && JustSlept(old(S()), S(), current, ticks)
      ensures current < |old(order).came| && order == Calling(old(order), current)
    {
      hide *;
      ValidIs();
      SoundIs();
      SIs();
      EventBlockedAll(S(), current);
      RunningWaitsForNothing(S(), current);
      ReadyOnly(S(), current);
      OnNoList(S(), W(), order, current);
      CallingOrder(S(), W(), order, current);
      order := Calling(order, current);
      Sleep(ticks);
      SIs();
      IdleStays(old(S()), S(), current, ticks, idle);
      SoundIntro();
      ValidIntro();
    }

    /** The event item of the current task is inserted by its value. */
    method JoinEventList(e: nat)
      requires Sound() && e < |events| && IsReady(S(), current)
      modifies `tcb, `events, `order
      ensures current < |old(tcb)| && W() == Joined(old(tcb), old(W()), e, current) && EventsOK(tcb, W())
      ensures tcb == old(tcb)[current := old(tcb)[current].(event := Waiting(e))]
      ensures current < |old(order).came| && order == Joining(Calling(old(order), current), old(W()), e)
      ensures OrderOK(S(), W(), order) && Latest(order, current)
    {
      hide *;
      SoundIs();
      SIs();
      RunningWaitsForNothing(S(), current);
      JoinKeeps(tcb, W(), e, current);
      JoinedIs(tcb, W(), e, current);
      ReadyOnly(S(), current);
      OnNoList(S(), W(), order, current);
      CallingOrder(S(), W(), order, current);
      JoinedOrder(S(), W(), Calling(order, current), e, current);
      LatestStays(Calling(order, current), W(), e, current);
      order := Joining(Calling(order, current), W(), e);
      var list := events[e];
      var place := Position(EventValues(tcb, list), tcb[current].eventValue);
      events := events[e := list[..place] + [current] + list[place..]];
      tcb := tcb[current := tcb[current].(event := Waiting(e))];
      SIs();
    }

    /** The current task waits for an event, for a limited time; interrupts are off or the
        scheduler is suspended. */
    method PlaceOnEventList(e: nat, ticks: nat)
      requires Valid() && e < |events| && current != idle && IsReady(S(), current) && 1 <= ticks < 0x1_0000_0000
      modifies `tcb, `ready, `delayed, `overflow, `wake, `events, `order
      ensures Valid() && current < |old(tcb)| && W() == Joined(old(tcb), old(W()), e, current)
      ensures JustSlept(old(S()).(tcb := old(tcb)[current := old(tcb)[current].(event := Waiting(e))]), S(), current,
                        ticks)
      ensures current < |old(order).came| && order == Joining(Calling(old(order), current), old(W()), e)
    {
      hide *;
      ValidIs();
      SoundIs();
      SIs();
      ghost var s0 := S();
      JoinEventList(e);
      SIs();
      EventField(s0, S(), current, Waiting(e), idle);
      SIs();
      ghost var s1 := S();
      Sleep(ticks);
      SIs();
      IdleStays(s1, S(), current, ticks, idle);
      SoundIntro();
      ValidIntro();
    }

    /** The event item of a waiting task goes to the end of the pending list. */
    method KeepPending(t: nat)
      requires Sound() && NoneDue(S()) && t < |tcb| && tcb[t].event != Nowhere
      modifies `tcb, `events, `pending
      ensures Sound() && NoneDue(S()) && S() == old(S()).(tcb := old(tcb)[t := old(tcb)[t].(event := Pending)])
      ensures events == Left(old(tcb), old(W()), t).events
      ensures pending.items == Left(old(tcb), old(W()), t).pending.items + [t]
    {
      hide *;
      SoundIs();
      SIs();
      ghost var s0 := S();
      TcbUpdate(tcb, t, Pending);
      PendOrder(S(), W(), order, t);
      LeaveEventList(t);
      SIs();
      PendKeeps(tcb, W(), t);
      pending := pending.InsertEnd(t);
      tcb := tcb[t := tcb[t].(event := Pending)];
      SIs();
      EventField(s0, S(), t, Pending, idle);
      SoundIntro();
    }

    /** The first task on an event list is readied, or kept pending while the scheduler is
        suspended; `higher` says whether it has at least the priority of the current task. */
    method RemoveFromEventList(e: nat) returns (higher: bool)
      requires Valid() && e < |events| && events[e] != []
      modifies `tcb, `ready, `top, `delayed, `overflow, `events, `pending
      ensures Valid() && old(events)[e][0] < |old(tcb)| && current < |old(tcb)| && |events| == |old(events)|
      ensures events == old(events)[e := old(events)[e][1..]]
      ensures suspended == 0 ==> JustWoken(old(S()), S(), old(events)[e][0]) && pending == old(pending)
      ensures suspended > 0 ==>
                S() == old(S()).(tcb := old(tcb)[old(events)[e][0] := old(tcb)[old(events)[e][0]].(event := Pending)])
                && pending.items == old(pending).items + [old(events)[e][0]]
      ensures higher <==> old(tcb)[old(events)[e][0]].priority >= old(tcb)[current].priority
      ensures e !in order.stirred ==> forall i :: 1 <= i < |old(events)[e]| ==>
                Before(old(tcb), order, old(events)[e][0], old(events)[e][i])
      ensures e !in order.stirred && (forall u :: u in old(events)[e] ==> u !in order.odd) ==>
                FirstHighest(old(tcb), order.came, old(events)[e])
    {
      hide *;
      ValidIs();
      SoundIs();
      SIs();
      var t := events[e][0];
      EventHead(tcb, W(), e);
      NextIsFirst(S(), W(), order, e);
      ghost var s0 := S();
      higher := tcb[t].priority >= tcb[current].priority;
      if suspended == 0 {
        WaitingBlocked(s0, t);
        Wake(t);
        WokenNoneDue(s0, S(), t);
        SIs();
      } else {
        KeepPending(t);
        NowIs(s0);
        NowIs(S());
        SIs();
      }
      ValidIntro();
    }

    // ---------- Priorities ----------

    /** Change the priorities of a ready task, which moves to the ready list of its new one. */
    method MoveReady(t: nat, changed: Tcb, ghost odd: bool)
      requires Sound() && NoneDue(S()) && IsReady(S(), t) && t < |tcb| && Adjusts(tcb[t], changed)
      requires changed.eventValue + (if odd then changed.basePriority else changed.priority) == 7
      requires changed.priority != tcb[t].priority
      modifies `tcb, `ready, `delayed, `overflow, `top, `order
      ensures Sound() && NoneDue(S()) && Renewed(old(S()), S(), t, changed)
      ensures order == Given(old(order), old(tcb), old(tcb)[t := changed], t, odd)
    {
      hide *;
      SoundIs();
      SIs();
      ghost var s0 := S();
      ReadyOnly(s0, t);
      TakeOffList(t);
      SIs();
      ghost var s1 := S();
      OffNoneDue(s0, s1, t);
      GivenOrder(s0, W(), order, t, changed, odd);
      order := Given(order, tcb, tcb[t := changed], t, odd);
      tcb := tcb[t := changed];
      SIs();
      ghost var s2 := S();
      AdjustedOut(s1, s2, t, changed);
      AddToReadyQueue(t);
      SIs();
      PutReadyFields(s2, t);
      RenewedReady(s0, s1, s2, S(), t, changed);
      RenewedKeeps(s0, S(), t, changed, idle, W());
      MovedOrder(s0, s1, s2, S(), W(), order, t);
      SoundIntro();
    }

    /** Change the priorities of a task in place: it is blocked, or stays at its priority. */
    method ChangeInPlace(t: nat, changed: Tcb, ghost odd: bool)
      requires Sound() && NoneDue(S()) && t < |tcb| && Adjusts(tcb[t], changed)
      requires changed.eventValue + (if odd then changed.basePriority else changed.priority) == 7
      requires IsBlocked(S(), t) || changed.priority == tcb[t].priority
      modifies `tcb, `order
      ensures Sound() && NoneDue(S()) && Renewed(old(S()), S(), t, changed)
      ensures order == Given(old(order), old(tcb), old(tcb)[t := changed], t, odd)
    {
      hide *;
      SoundIs();
      SIs();
      ghost var s0 := S();
      GivenOrder(s0, W(), order, t, changed, odd);
      order := Given(order, tcb, tcb[t := changed], t, odd);
      tcb := tcb[t := changed];
      SIs();
      AdjustedInPlace(s0, S(), t, changed);
      RenewedKeeps(s0, S(), t, changed, idle, W());
      SoundIntro();
    }

    /** Set the base priority of a task, and with it the priority it runs at unless that is
        inherited; `yieldRequired` says whether a task of higher priority may be ready now. */
    method PrioritySet(t: nat, newPriority: nat) returns (yieldRequired: bool)
      requires Valid() && t < |tcb|
      modifies `tcb, `ready, `delayed, `overflow, `top, `order
      ensures Valid() && |tcb| == |old(tcb)|
      ensures tcb[t].basePriority == if newPriority >= 7 then 6 else newPriority
      ensures tcb[t].priority ==
               if old(tcb)[t].priority == old(tcb)[t].basePriority then tcb[t].basePriority else old(tcb)[t].priority
      ensures Renewed(old(S()), S(), t, tcb[t])
      ensures yieldRequired <==> (if t == current then tcb[t].basePriority < old(tcb)[t].basePriority
                                  else tcb[t].basePriority > old(tcb)[t].basePriority)
      ensures order == if tcb[t].basePriority == old(tcb)[t].basePriority then old(order)
                        else Given(old(order), old(tcb), tcb, t, tcb[t].priority != tcb[t].basePriority)
    {
      hide *;
      ValidIs();
      SoundIs();
      SIs();
      RenewedSame(S(), t);
      yieldRequired := false;
      var new' := if newPriority >= 7 then 6 else newPriority;
      var currentPriority := tcb[t].basePriority;
      if currentPriority != new' {
        if new' > currentPriority {
          yieldRequired := t != current;
        } else {
          yieldRequired := t == current;
        }
        var changed := tcb[t].(priority := if tcb[t].basePriority == tcb[t].priority then new' else tcb[t].priority,
                               basePriority := new', eventValue := 7 - new');
        InItsList(S(), t, currentPriority);
        AdjustsIntro(S(), t, changed);
        if currentPriority < 7 && t in ready[currentPriority].items {
          MoveReady(t, changed, changed.priority != new');
        } else {
          ChangeInPlace(t, changed, changed.priority != new');
        }
        SIs();
        RenewedIs(old(S()), S(), t, changed);
      }
      ValidIntro();
    }

    /** A mutex holder inherits the priority of the current task if that is higher. */
    method PriorityInherit(holder: nat)
      requires Valid() && holder < |tcb|
      modifies `tcb, `ready, `delayed, `overflow, `top, `order
      ensures Valid() && |tcb| == |old(tcb)| && current < |tcb|
      ensures tcb[holder].basePriority == old(tcb)[holder].basePriority
      ensures tcb[holder].priority ==
               if old(tcb)[holder].priority < old(tcb)[current].priority then old(tcb)[current].priority
                                      else old(tcb)[holder].priority
      ensures Renewed(old(S()), S(), holder, tcb[holder])
      ensures order == if tcb[holder].priority == old(tcb)[holder].priority then old(order)
                        else Given(old(order), old(tcb), tcb, holder, false)
    {
      hide *;
      ValidIs();
      SoundIs();
      SIs();
      RenewedSame(S(), holder);
      if tcb[holder].priority < tcb[current].priority {
        InItsList(S(), holder, tcb[holder].priority);
        PriorityBound(S(), current);
        var changed := tcb[holder].(priority := tcb[current].priority, eventValue := 7 - tcb[current].priority);
        AdjustsIntro(S(), holder, changed);
        if holder in ready[tcb[holder].priority].items {
          MoveReady(holder, changed, false);
        } else {
          ChangeInPlace(holder, changed, false);
        }
        SIs();
        RenewedIs(old(S()), S(), holder, changed);
      }
      ValidIntro();
    }

    /** The running task gives the mutex back and returns to its base priority. */
    method PriorityDisinherit(holder: nat)
      requires Valid() && IsReady(S(), holder) && holder < |tcb|
      modifies `tcb, `ready, `delayed, `overflow, `top, `order
      ensures Valid() && |tcb| == |old(tcb)|
      ensures tcb[holder].priority == tcb[holder].basePriority == old(tcb)[holder].basePriority
      ensures Renewed(old(S()), S(), holder, tcb[holder])
      ensures order == if tcb[holder].priority == old(tcb)[holder].priority then old(order)
                        else Given(old(order), old(tcb), tcb, holder, false)
    {
      hide *;
      ValidIs();
      SoundIs();
      SIs();
      RenewedSame(S(), holder);
      if tcb[holder].priority != tcb[holder].basePriority {
        BaseBound(S(), holder);
        var changed := tcb[holder].(priority := tcb[holder].basePriority, eventValue := 7 - tcb[holder].basePriority);
        AdjustsIntro(S(), holder, changed);
        MoveReady(holder, changed, false);
        SIs();
        RenewedIs(old(S()), S(), holder, changed);
      }
      ValidIntro();
    }

    // ---------- Creating tasks ----------

    /** The kernel with its idle task, before any tick. */
    constructor (lists: nat)
      ensures Valid() && suspended == 0 && clock == 0 && |tcb| == 1 && |events| == lists && !running && current == 0
      ensures idle == 0 && tcb[0].priority == 0 && order.odd == order.stirred == {}
      ensures forall e :: 0 <= e < lists ==> events[e] == []
    {
      hide *;
      idle, running := 0, false;
      tcb := [Tcb(0, 0, 0, 7, Nowhere)];
      ready := [Ring([0], 1), Ring([], 0), Ring([], 0), Ring([], 0), Ring([], 0), Ring([], 0), Ring([], 0)];
      top, delayed, overflow, pending := 0, [], [], Ring([], 0);
      events := seq(lists, _ => []);
      tick, overflows, suspended, missed, missedYield, current := 0, 0, 0, 0, false, 0;
      epoch, wake, clock, order := 0, [0], 0, Order([0], 0, {}, {});
      new;
      SIs();
      Initial(S());
      InitialEvents(tcb, W());
      InitialOrder(S(), W(), order);
      SoundIntro();
      NowIs(S());
      ValidIntro();
    }

    /** The scheduler starts with the current task. */
    method StartScheduler()
      requires Valid() && !running
      modifies `running
      ensures Valid() && running
    {
      running := true;
    }

    /** A new task of a priority that is capped to the valid range. */
    method AddTask(uxPriority: nat) returns (t: nat)
      requires Valid()
      modifies `tcb, `ready, `top, `wake, `order
      ensures Valid() && t == |old(tcb)| && |tcb| == t + 1 && IsReady(S(), t) && tcb[..t] == old(tcb)
      ensures wake == old(wake) + [0] && |old(wake)| == t && current < t
      ensures tcb[t].priority == tcb[t].basePriority == if uxPriority >= 7 then 6 else uxPriority
      ensures forall u :: 0 <= u < t ==> (IsReady(S(), u) <==> old(IsReady(S(), u)))
      ensures RoundsOn(old(S()), S(), tcb[t].priority, t)
      ensures order == Starting(old(order))
    {
      hide *;
      ValidIs();
      SoundIs();
      SIs();
      ghost var s0 := S();
      var priority := if uxPriority >= 7 then 6 else uxPriority;
      t := |tcb|;
      tcb := tcb + [Tcb(priority, priority, 0, 7 - priority, Nowhere)];
      wake := wake + [0];
      order := Starting(order);
      SIs();
      ghost var s1 := S();
      Added(s0, s1, W(), idle);
      AddToReadyQueue(t);
      SIs();
      PutReadyFields(s1, t);
      AddedReady(s0, s1, S(), idle);
      AddedOrder(s0, S(), W(), old(order));
      SoundIntro();
      ValidIntro();
    }

    /** Before the scheduler runs, a new task becomes the current one if no task so far has a higher
        priority; afterwards it may ask for a yield, which it decides by the priority asked for. */
    method Create(uxPriority: nat) returns (t: nat, yielded: bool)
      requires Valid()
      modifies `tcb, `ready, `top, `wake, `order, `current
      ensures Valid() && t == |old(tcb)| && |tcb| == t + 1 && IsReady(S(), t) && tcb[..t] == old(tcb)
      ensures wake == old(wake) + [0] && |old(wake)| == t && current < |tcb| && old(current) < t
      ensures tcb[t].priority == tcb[t].basePriority == if uxPriority >= 7 then 6 else uxPriority
      ensures forall u :: 0 <= u < t ==> (IsReady(S(), u) <==> old(IsReady(S(), u)))
      ensures running ==> current == old(current) && (yielded <==> tcb[current].priority < uxPriority)
      ensures !running ==>
                && !yielded && current in {old(current), t}
                && (old(Highest(tcb, current)) ==> Highest(tcb, current))
      ensures RoundsOn(old(S()), S(), tcb[t].priority, t)
      ensures order == Starting(old(order))
    {
      hide *;
      ValidIs();
      SoundIs();
      BaseBounds();
      t := AddTask(uxPriority);
      HighestNext(old(tcb), tcb[t], current, uxPriority);
      assert tcb == old(tcb) + [tcb[t]];
      yielded := running && tcb[current].priority < uxPriority;
      ValidIs();
      SoundIs();
      if !running && tcb[current].priority <= uxPriority { current := t; }
      SoundIntro();
      ValidIntro();
    }

    /** Every priority is in range. */
    lemma BaseBounds()
      requires Sound()
      ensures forall u :: 0 <= u < |tcb| ==> tcb[u].priority < 7
    {
      hide Inv, EventsOK, EventBlocked, IsReady;
      forall u: nat | u < |tcb| ensures tcb[u].priority < 7 { PriorityBound(S(), u); }
    }
  }
}
