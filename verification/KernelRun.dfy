/** Runs of the scheduler: any sequence of ticks and calls. A task that goes to sleep for some ticks is
    ready again exactly when as many have been processed, unless an event takes it out first. */
module KernelRun {
  import opened Seqs
  import opened KernelRing
  import opened KernelSched
  import opened KernelOrder
  import opened KernelTasks

  datatype Op = Tick
    | Suspend
    | Resume
    | Switch
    | Delay(ticks: nat)
    | Await(list: nat, ticks: nat)
    | Post(list: nat)
    | SetPriority(task: nat, priority: nat)
    | Inherit(holder: nat)
    | Disinherit(holder: nat)
    | NewTask(priority: nat)

  /** The kernel between two of them. */
  datatype Moment = Moment(s: Sched, w: Waits, current: nat, suspended: nat, missed: nat, clock: nat, order: Order)

  ghost function At(k: Kernel): Moment
    reads k
  {
    Moment(k.S(), k.W(), k.current, k.suspended, k.missed, k.clock, k.order)
  }

  /** What holds between calls. */
  ghost predicate MomentOK(m: Moment) {
    && Inv(m.s, -1) && NoneDue(m.s) && EventsOK(m.s.tcb, m.w) && EventBlocked(m.s, -1) && m.current < |m.s.tcb|
    && Now(m.s) + m.missed == m.clock && (m.suspended == 0 ==> m.missed == 0 && m.w.pending.items == [])
    && OrderOK(m.s, m.w, m.order)
  }

  lemma MomentIs(m: Moment)
    requires MomentOK(m)
    ensures Inv(m.s, -1) && NoneDue(m.s) && EventsOK(m.s.tcb, m.w) && EventBlocked(m.s, -1) && m.current < |m.s.tcb|
    ensures Now(m.s) + m.missed == m.clock && (m.suspended == 0 ==> m.missed == 0 && m.w.pending.items == [])
    ensures |m.s.wake| == |m.s.tcb| && OrderOK(m.s, m.w, m.order)
  {
    hide Now, NoneDue, EventsOK, EventBlocked, ListOK, ReadyListOK, TaskOK, OrderOK;
  }

  lemma ValidMoment(k: Kernel)
    requires k.Valid()
    ensures MomentOK(At(k))
  {
    hide Inv, NoneDue, EventsOK, EventBlocked, OrderOK, IsReady, Now;
  }

  /** Only a task that runs can call, and the idle task does not block; the first task of a list is posted. */
  ghost predicate Allowed(m: Moment, op: Op, idle: nat) {
    match op {
      case Tick => true
      case Suspend => true
      case Resume => m.suspended > 0
      case Switch => true
      case Delay(ticks) => m.suspended > 0 && m.current != idle && IsReady(m.s, m.current) && 1 <= ticks < 0x1_0000_0000
      case Await(e, ticks) =>
        e < |m.w.events| && m.current != idle && IsReady(m.s, m.current) && 1 <= ticks < 0x1_0000_0000
      case Post(e) => e < |m.w.events| && m.w.events[e] != []
      case SetPriority(t, p) => t < |m.s.tcb|
      case Inherit(h) => h < |m.s.tcb|
      case Disinherit(h) => h < |m.s.tcb| && IsReady(m.s, h)
      case NewTask(p) => true
    }
  }

  // ---------- What the operations mean for sleepers ----------

  /** Nobody is readied or blocked, and no wake time changes. */
  ghost predicate Unmoved(m: Moment, m': Moment) {
    && |m.s.tcb| <= |m'.s.tcb| && |m.s.wake| <= |m'.s.wake| && m'.s.wake[..|m.s.wake|] == m.s.wake
    && Now(m'.s) == Now(m.s) && m'.w.pending == m.w.pending
    && forall u :: 0 <= u < |m.s.tcb| ==> (IsReady(m'.s, u) <==> IsReady(m.s, u))
  }

  /** Time goes on: whoever's time has come is ready, and those whose event came if that is told. */
  ghost predicate Elapsed(m: Moment, m': Moment) {
    && |m'.s.tcb| == |m.s.tcb| && m'.s.wake == m.s.wake && Now(m.s) <= Now(m'.s)
    && forall u :: 0 <= u < |m.s.tcb| && u < |m.s.wake| ==>
         (IsReady(m'.s, u) <==> IsReady(m.s, u) || m.s.tcb[u].event == Pending || m.s.wake[u] <= Now(m'.s))
  }

  /** Task `t` goes to sleep, nobody else moves. */
  ghost predicate Blocks(m: Moment, m': Moment, t: nat, ticks: nat) {
    && t < |m.s.tcb| == |m.s.wake| && |m'.s.tcb| == |m.s.tcb| && m'.s.wake == m.s.wake[t := Now(m.s) + ticks]
    && Now(m'.s) == Now(m.s) && IsBlocked(m'.s, t) && m'.w.pending == m.w.pending
    && forall u :: 0 <= u < |m.s.tcb| && u != t ==> (IsReady(m'.s, u) <==> IsReady(m.s, u))
  }

  /** The event of task `t` comes: it is ready, or pending while the scheduler is suspended. */
  ghost predicate Posted(m: Moment, m': Moment, t: nat) {
    && t < |m.s.tcb| && |m'.s.tcb| == |m.s.tcb| && m'.s.wake == m.s.wake && Now(m'.s) == Now(m.s)
    && (forall u :: 0 <= u < |m.s.tcb| && u != t ==> (IsReady(m'.s, u) <==> IsReady(m.s, u)))
    && (forall u :: u in m'.w.pending.items && u != t ==> u in m.w.pending.items)
    && (if m.suspended == 0 then IsReady(m'.s, t) else t in m'.w.pending.items)
  }

  ghost predicate Does(m: Moment, op: Op, m': Moment, idle: nat) {
    && m'.clock == m.clock + (if op.Tick? then 1 else 0)
    && m'.suspended == (if op.Suspend? then m.suspended + 1
                        else if op.Resume? && m.suspended > 0 then m.suspended - 1 else m.suspended)
    && if !Allowed(m, op, idle) then m' == m
       else match op {
         case Tick => if m.suspended > 0 then Unmoved(m, m') else Elapsed(m, m') && Now(m'.s) == Now(m.s) + 1
         case Suspend => Unmoved(m, m')
         case Resume => if m.suspended > 1 then Unmoved(m, m') else Elapsed(m, m')
         case Switch => Unmoved(m, m')
         case Delay(ticks) => Blocks(m, m', m.current, ticks)
         case Await(e, ticks) => Blocks(m, m', m.current, ticks)
         case Post(e) => e < |m.w.events| && m.w.events[e] != [] && Posted(m, m', m.w.events[e][0])
         case SetPriority(t, p) => Unmoved(m, m')
         case Inherit(h) => Unmoved(m, m')
         case Disinherit(h) => Unmoved(m, m')
         case NewTask(p) => Unmoved(m, m')
       }
  }

  // ---------- What they mean for ready tasks ----------

  /** New tasks come last, or one task leaves; the others keep their order. */
  ghost predicate Orderly(line: seq<nat>, line': seq<nat>) {
    line <= line' || exists t :: Without(line, line', t)
  }

  /** Nobody with a higher priority than `p` is ready. */
  ghost predicate NoneAbove(s: Sched, p: nat) {
    forall u :: 0 <= u < |s.tcb| && IsReady(s, u) ==> s.tcb[u].priority <= p
  }

  /** A switch gives the processor to the first task of the highest round that is not empty, which is then its
      last; all other operations leave the rounds in order. */
  ghost predicate Serves(m: Moment, op: Op, m': Moment) {
    && |m.s.ready| == |m'.s.ready| == 7
    && if op.Switch? && m.suspended == 0
       then && m'.current < |m.s.tcb| && NoneAbove(m.s, m.s.tcb[m'.current].priority)
            && RoundsTurn(m.s, m'.s, m.s.tcb[m'.current].priority)
            && Round(m.s, m.s.tcb[m'.current].priority)[0] == m'.current
       else forall q :: 0 <= q < 7 ==> Orderly(Round(m.s, q), Round(m'.s, q))
  }

  // ---------- What they mean for event lists ----------

  /** Task `t` may have been given a priority. */
  ghost predicate Regiven(m: Moment, m': Moment, t: nat) {
    && m'.w.events == m.w.events && t < |m.s.tcb| && t < |m'.s.tcb|
    && (m'.order == m.order || exists odd :: m'.order == Given(m.order, m.s.tcb, m'.s.tcb, t, odd))
  }

  /** Only a task that waits joins a list, and only a task that is given a priority can disturb one. */
  ghost predicate Lines(m: Moment, op: Op, m': Moment, idle: nat) {
    && |m'.w.events| == |m.w.events|
    && if Allowed(m, op, idle) && (op.Delay? || op.Await?)
       then && m.current < |m.order.came|
            && m'.order == (if op.Delay? then Calling(m.order, m.current)
                            else Joining(Calling(m.order, m.current), m.w, op.list))
            && forall e :: 0 <= e < |m.w.events| && !(op.Await? && op.list == e) ==> m'.w.events[e] == m.w.events[e]
       else if Allowed(m, op, idle) && op.SetPriority? then Regiven(m, m', op.task)
       else if Allowed(m, op, idle) && (op.Inherit? || op.Disinherit?) then Regiven(m, m', op.holder)
       else && m'.order == (if op.NewTask? then Starting(m.order) else m.order)
            && forall e :: 0 <= e < |m.w.events| && m.w.events[e] == [] ==> m'.w.events[e] == []
  }

  // ---------- A run ----------

  ghost predicate Traced(ops: seq<Op>, trace: seq<Moment>, idle: nat) {
    && |trace| == |ops| + 1
    && (forall i :: 0 <= i < |trace| ==> MomentOK(trace[i]))
    && (forall i :: 0 <= i < |ops| ==> Does(trace[i], ops[i], trace[i + 1], idle))
    && (forall i :: 0 <= i < |ops| ==> Serves(trace[i], ops[i], trace[i + 1]))
    && forall i :: 0 <= i < |ops| ==> Lines(trace[i], ops[i], trace[i + 1], idle)
  }

  /** Task `t` goes to sleep for that many ticks. */
  ghost predicate GoesToSleep(m: Moment, op: Op, t: nat, ticks: nat, idle: nat) {
    && Allowed(m, op, idle) && m.current == t && ((op.Delay? && op.ticks == ticks) || (op.Await? && op.ticks == ticks))
  }

  /** The step neither brings the event of task `t` nor sends it to sleep. */
  ghost predicate LeavesAlone(m: Moment, op: Op, t: nat, idle: nat) {
    Allowed(m, op, idle) ==>
      && !((op.Delay? || op.Await?) && m.current == t)
      && !(op.Post? && m.w.events[op.list][0] == t)
  }

  /** Ticks among the operations. */
  function Ticks(ops: seq<Op>): nat {
    if ops == [] then 0 else Ticks(ops[..|ops| - 1]) + (if ops[|ops| - 1].Tick? then 1 else 0)
  }

  /** What a sleeper's step keeps: it is ready exactly from its wake time on. */
  ghost predicate Due(m: Moment, t: nat, until: nat) {
    && t < |m.s.tcb| && t < |m.s.wake| && m.s.wake[t] == until && t !in m.w.pending.items
    && (IsReady(m.s, t) <==> Now(m.s) >= until)
  }

  lemma FallsAsleep(m: Moment, op: Op, m': Moment, t: nat, ticks: nat, idle: nat)
    requires MomentOK(m) && MomentOK(m') && Does(m, op, m', idle) && GoesToSleep(m, op, t, ticks, idle)
    ensures Due(m', t, Now(m.s) + ticks)
  {
    MomentIs(m);
    MomentIs(m');
    SleepsUntil(m'.s, t);
    NotPending(m, t);
    hide Inv, NoneDue, EventsOK, EventBlocked, OrderOK, Now, MomentOK, IsBlocked, Elapsed, Unmoved, Posted;
  }

  /** A ready task's event item is on no list. */
  lemma NotPending(m: Moment, t: nat)
    requires MomentOK(m) && t < |m.s.tcb| && IsReady(m.s, t)
    ensures t !in m.w.pending.items
  {
    assert TaskOK(m.s, t, -1);
    assert EventListOK(m.s.tcb, m.w.pending.items, Pending);
    hide Distinct, OnReadyList;
    assert m.s.tcb[t].event != Pending;
  }

  lemma PendingListed(m: Moment, t: nat)
    requires MomentOK(m) && t < |m.s.tcb| && m.s.tcb[t].event == Pending
    ensures t in m.w.pending.items
  {
    assert EventAt(m.s.tcb, m.w, t);
  }

  lemma StaysDue(m: Moment, op: Op, m': Moment, t: nat, until: nat, idle: nat)
    requires MomentOK(m) && MomentOK(m') && Does(m, op, m', idle) && Due(m, t, until) && LeavesAlone(m, op, t, idle)
    ensures Due(m', t, until)
  {
    MomentIs(m);
    MomentIs(m');
    if m.s.tcb[t].event == Pending { PendingListed(m, t); }
    hide Inv, NoneDue, EventsOK, EventBlocked, OrderOK, Now, MomentOK, IsBlocked, IsReady;
    if Allowed(m, op, idle) && (op.Tick? || op.Resume?) {
      assert Due(m', t, until);
    }
  }

  /** In every run, a task that goes to sleep for `ticks` ticks is ready again exactly when that many have
      been processed, if neither an event nor another wait comes in between. */
  lemma {:induction false} WakesExactly(ops: seq<Op>, trace: seq<Moment>, idle: nat, t: nat, ticks: nat, i: nat, j: nat)
    requires Traced(ops, trace, idle) && i < j < |trace| && GoesToSleep(trace[i], ops[i], t, ticks, idle)
    requires forall k :: i < k < j ==> LeavesAlone(trace[k], ops[k], t, idle)
    ensures Due(trace[j], t, Now(trace[i].s) + ticks)
    ensures IsReady(trace[j].s, t) <==> Now(trace[j].s) >= Now(trace[i].s) + ticks
    decreases j
  {
    hide MomentOK, Allowed, GoesToSleep, LeavesAlone, Does, Serves, Lines, Now, IsReady;
    if j == i + 1 {
      FallsAsleep(trace[i], ops[i], trace[i + 1], t, ticks, idle);
    } else {
      WakesExactly(ops, trace, idle, t, ticks, i, j - 1);
      assert Does(trace[j - 1], ops[j - 1], trace[j - 1 + 1], idle);
      StaysDue(trace[j - 1], ops[j - 1], trace[j], t, Now(trace[i].s) + ticks, idle);
    }
  }

  lemma ClockStep(m: Moment, op: Op, m': Moment, idle: nat)
    requires Does(m, op, m', idle)
    ensures m'.clock == m.clock + (if op.Tick? then 1 else 0)
  {
    hide Allowed, Unmoved, Elapsed, Blocks, Posted, Now;
  }

  /** The clock counts the ticks. */
  lemma {:induction false} ClockCounts(ops: seq<Op>, trace: seq<Moment>, idle: nat, i: nat, j: nat)
    requires Traced(ops, trace, idle) && i <= j < |trace|
    ensures trace[j].clock == trace[i].clock + Ticks(ops[i..j])
    decreases j
  {
    hide MomentOK, Does, Serves, Lines;
    if i < j {
      ClockCounts(ops, trace, idle, i, j - 1);
      assert Does(trace[j - 1], ops[j - 1], trace[j - 1 + 1], idle);
      ClockStep(trace[j - 1], ops[j - 1], trace[j], idle);
      assert ops[i..j][..|ops[i..j]| - 1] == ops[i..j - 1];
    }
  }

  /** The same in real ticks: whenever the scheduler is not suspended, the sleeper is ready exactly if its
      ticks have gone by since it called, those that were still missed then included. */
  lemma WakesOnTime(ops: seq<Op>, trace: seq<Moment>, idle: nat, t: nat, ticks: nat, i: nat, j: nat)
    requires Traced(ops, trace, idle) && i < j < |trace| && GoesToSleep(trace[i], ops[i], t, ticks, idle)
    requires (forall k :: i < k < j ==> LeavesAlone(trace[k], ops[k], t, idle)) && trace[j].suspended == 0
    ensures IsReady(trace[j].s, t) <==> trace[i].missed + Ticks(ops[i..j]) >= ticks
  {
    WakesExactly(ops, trace, idle, t, ticks, i, j);
    ClockCounts(ops, trace, idle, i, j);
    MomentIs(trace[i]);
    MomentIs(trace[j]);
    hide MomentOK, Does, Serves, Lines, Now, IsReady, GoesToSleep, LeavesAlone, Due;
  }

  // ---------- Turns ----------

  /** The task is ready at priority `p`. */
  ghost predicate Stands(m: Moment, t: nat, p: nat) {
    t < |m.s.tcb| && IsReady(m.s, t) && m.s.tcb[t].priority == p
  }

  /** A switch while nobody above priority `p` is ready. */
  ghost predicate TurnAt(m: Moment, op: Op, p: nat) {
    op.Switch? && m.suspended == 0 && NoneAbove(m.s, p)
  }

  /** How many of them there are from `i` to `j`. */
  ghost function TurnsAt(ops: seq<Op>, trace: seq<Moment>, p: nat, i: nat, j: nat): nat
    requires j <= |ops| && j <= |trace|
  {
    if j <= i then 0
    else TurnsAt(ops, trace, p, i, j - 1) + (if TurnAt(trace[j - 1], ops[j - 1], p) then 1 else 0)
  }

  /** How many tasks have their turn before task `t`. */
  ghost function Ahead(s: Sched, p: nat, t: nat): nat {
    if t in Round(s, p) then IndexOf(Round(s, p), t) else 0
  }

  lemma StandsIn(m: Moment, t: nat, p: nat)
    requires MomentOK(m) && Stands(m, t, p)
    ensures p < 7 && t in Round(m.s, p) && Distinct(Round(m.s, p)) && |m.s.ready| == 7
  {
    assert TaskOK(m.s, t, -1);
    RoundHas(m.s, t);
  }

  lemma IndexIs(v: seq<nat>, t: nat, i: nat)
    requires Distinct(v) && i < |v| && v[i] == t
    ensures IndexOf(v, t) == i
  {
  }

  /** Nobody gets in front of a task that stays. */
  lemma OrderlyAhead(v: seq<nat>, v': seq<nat>, t: nat)
    requires Orderly(v, v') && Distinct(v) && Distinct(v') && t in v && t in v'
    ensures IndexOf(v', t) <= IndexOf(v, t)
  {
    var i := IndexOf(v, t);
    if v <= v' {
      IndexIs(v', t, i);
    } else {
      var u :| Without(v, v', u);
      var k := IndexOf(v, u);
      if i < k { IndexIs(v', t, i); } else if i > k { IndexIs(v', t, i - 1); } else { LeftIs(v, v', t, k); }
    }
  }

  lemma LeftIs(v: seq<nat>, v': seq<nat>, t: nat, k: nat)
    requires Distinct(v) && k < |v| && v[k] == t && v' == v[..k] + v[k + 1..]
    ensures t !in v'
  {
  }

  lemma RotatedAhead(v: seq<nat>, v': seq<nat>, t: nat)
    requires v != [] && v' == v[1..] + v[..1] && Distinct(v) && Distinct(v') && t in v && v[0] != t
    ensures t in v' && IndexOf(v', t) + 1 == IndexOf(v, t)
  {
    var i := IndexOf(v, t);
    assert v'[i - 1] == t;
    IndexIs(v', t, i - 1);
  }

  lemma AheadIs(s: Sched, p: nat, t: nat)
    requires t in Round(s, p)
    ensures Ahead(s, p, t) == IndexOf(Round(s, p), t)
  {
    hide Round;
  }

  /** The task that is served is one of the highest priority that is ready. */
  lemma ServedTop(m: Moment, m': Moment, t: nat, p: nat)
    requires Serves(m, Switch, m') && m.suspended == 0 && NoneAbove(m.s, p) && Stands(m, t, p) && p < 7
    requires m'.current < |m.s.tcb| && IsReady(m.s, m'.current) && m'.current != t
    ensures Round(m.s, p) != [] && Round(m'.s, p) == Round(m.s, p)[1..] + Round(m.s, p)[..1] && Round(m.s, p)[0] != t
  {
    hide OnReadyList, Round;
    assert m.s.tcb[m'.current].priority == p;
  }

  /** A turn of its round brings a task one place forward, unless it is the one that is served. */
  lemma TurnAhead(m: Moment, m': Moment, t: nat, p: nat)
    requires MomentOK(m) && MomentOK(m') && Stands(m, t, p) && Stands(m', t, p) && NoneAbove(m.s, p)
    requires Serves(m, Switch, m') && m.suspended == 0 && m'.current != t
    ensures Ahead(m'.s, p, t) + 1 == Ahead(m.s, p, t)
  {
    StandsIn(m, t, p);
    StandsIn(m', t, p);
    ServedReady(m, m');
    ServedTop(m, m', t, p);
    hide *;
    AheadIs(m.s, p, t);
    AheadIs(m'.s, p, t);
    RotatedAhead(Round(m.s, p), Round(m'.s, p), t);
  }

  lemma ServedReady(m: Moment, m': Moment)
    requires MomentOK(m) && Serves(m, Switch, m') && m.suspended == 0
    ensures m'.current < |m.s.tcb| && IsReady(m.s, m'.current)
  {
    var p := m.s.tcb[m'.current].priority;
    assert TaskOK(m.s, m'.current, -1);
    RoundHas(m.s, m'.current);
  }

  lemma StepAhead(m: Moment, op: Op, m': Moment, t: nat, p: nat)
    requires MomentOK(m) && MomentOK(m') && Stands(m, t, p) && Stands(m', t, p) && Serves(m, op, m')
    requires TurnAt(m, op, p) ==> m'.current != t
    ensures Ahead(m'.s, p, t) + (if TurnAt(m, op, p) then 1 else 0) <= Ahead(m.s, p, t)
  {
    StandsIn(m, t, p);
    StandsIn(m', t, p);
    hide MomentOK;
    if TurnAt(m, op, p) {
      TurnAhead(m, m', t, p);
    } else if op.Switch? && m.suspended == 0 {
      OtherRound(m, m', p);
    } else {
      hide IsReady, RoundsTurn, Round;
      OrderlyAhead(Round(m.s, p), Round(m'.s, p), t);
    }
  }

  /** A switch to a higher priority leaves the round alone. */
  lemma OtherRound(m: Moment, m': Moment, p: nat)
    requires Serves(m, Switch, m') && m.suspended == 0 && p < 7 && !NoneAbove(m.s, p)
    ensures Round(m'.s, p) == Round(m.s, p)
  {
  }

  /** In every run, a task that stays ready at its priority is served within as many switches as it had tasks
      before it, counting only switches while nobody above is ready, and whoever is readied meanwhile. */
  lemma {:induction false} TurnComes(ops: seq<Op>, trace: seq<Moment>, idle: nat, t: nat, p: nat, i: nat, j: nat)
    requires Traced(ops, trace, idle) && i <= j < |trace| && forall k :: i <= k <= j ==> Stands(trace[k], t, p)
    requires TurnsAt(ops, trace, p, i, j) > Ahead(trace[i].s, p, t)
    ensures exists k :: i <= k < j && TurnAt(trace[k], ops[k], p) && trace[k + 1].current == t
  {
    hide MomentOK, Does, Serves, Lines, Stands, TurnAt;
    if !exists k :: i <= k < j && TurnAt(trace[k], ops[k], p) && trace[k + 1].current == t {
      MovesUp(ops, trace, idle, t, p, i, j);
    }
  }

  lemma {:induction false} MovesUp(ops: seq<Op>, trace: seq<Moment>, idle: nat, t: nat, p: nat, i: nat, j: nat)
    requires Traced(ops, trace, idle) && i <= j < |trace| && forall k :: i <= k <= j ==> Stands(trace[k], t, p)
    requires forall k :: i <= k < j && TurnAt(trace[k], ops[k], p) ==> trace[k + 1].current != t
    ensures Ahead(trace[j].s, p, t) + TurnsAt(ops, trace, p, i, j) <= Ahead(trace[i].s, p, t)
    decreases j
  {
    hide MomentOK, Does, Serves, Lines, Stands, TurnAt, Round;
    if i == j {
      StandsIn(trace[i], t, p);
    } else {
      MovesUp(ops, trace, idle, t, p, i, j - 1);
      assert Serves(trace[j - 1], ops[j - 1], trace[j - 1 + 1]);
      StepAhead(trace[j - 1], ops[j - 1], trace[j], t, p);
    }
  }

  // ---------- Event lists ----------

  /** The operation gives a priority to a task that waits on list `e`. */
  ghost predicate Disturbs(m: Moment, op: Op, e: nat) {
    && e < |m.w.events|
    && ((op.SetPriority? && op.task in m.w.events[e]) || ((op.Inherit? || op.Disinherit?)
                                                          && op.holder in m.w.events[e]))
  }

  /** No rank was changed on the list since it was empty. */
  ghost predicate Calm(m: Moment, e: nat) {
    e < |m.w.events| && (m.w.events[e] == [] || e !in m.order.stirred)
  }

  lemma StaysCalm(m: Moment, op: Op, m': Moment, e: nat, idle: nat)
    requires MomentOK(m) && Lines(m, op, m', idle) && Calm(m, e) && !Disturbs(m, op, e)
    ensures Calm(m', e)
  {
    assert EventsOK(m.s.tcb, m.w);
    if op.SetPriority? && op.task < |m.s.tcb| { assert EventAt(m.s.tcb, m.w, op.task); }
    if (op.Inherit? || op.Disinherit?) && op.holder < |m.s.tcb| { assert EventAt(m.s.tcb, m.w, op.holder); }
    hide MomentOK, EventsOK, Rank, IsReady;
  }

  /** Task `t` makes a call that puts it to sleep. */
  ghost predicate Sleeps(m: Moment, op: Op, t: nat, idle: nat) {
    Allowed(m, op, idle) && (op.Delay? || op.Await?) && m.current == t
  }

  lemma CallStep(m: Moment, op: Op, m': Moment, t: nat, idle: nat)
    requires Lines(m, op, m', idle) && t < |m.order.came|
    ensures t < |m'.order.came| && m'.order.calls >= m.order.calls
    ensures if Sleeps(m, op, t, idle) then m'.order.came[t] == m'.order.calls == m.order.calls + 1
            else m'.order.came[t] == m.order.came[t]
  {
    hide Rank, IsReady;
  }

  /** A task keeps the number of its last call that put it to sleep, and numbers grow. */
  lemma {:induction false} CallKept(ops: seq<Op>, trace: seq<Moment>, idle: nat, t: nat, i: nat, j: nat)
    requires Traced(ops, trace, idle) && i <= j < |trace| && t < |trace[i].order.came|
    requires forall k :: i <= k < j ==> !Sleeps(trace[k], ops[k], t, idle)
    ensures t < |trace[j].order.came| && trace[j].order.came[t] == trace[i].order.came[t]
    ensures trace[j].order.calls >= trace[i].order.calls
    decreases j
  {
    hide MomentOK, Does, Serves, Lines, Sleeps;
    if i < j {
      CallKept(ops, trace, idle, t, i, j - 1);
      assert Lines(trace[j - 1], ops[j - 1], trace[j - 1 + 1], idle);
      CallStep(trace[j - 1], ops[j - 1], trace[j], t, idle);
    }
  }

  /** Of two tasks that went to sleep one after the other, the first one came first. */
  lemma CameFirst(ops: seq<Op>, trace: seq<Moment>, idle: nat, t: nat, u: nat, i: nat, j: nat, k: nat)
    requires Traced(ops, trace, idle) && i < j < k < |trace| && t < |trace[i].order.came| && u < |trace[i].order.came|
    requires Sleeps(trace[i], ops[i], t, idle) && forall x :: i < x < k ==> !Sleeps(trace[x], ops[x], t, idle)
    requires Sleeps(trace[j], ops[j], u, idle) && forall x :: j < x < k ==> !Sleeps(trace[x], ops[x], u, idle)
    ensures t < |trace[k].order.came| && u < |trace[k].order.came| && trace[k].order.came[t] < trace[k].order.came[u]
  {
    hide MomentOK, Does, Serves, Lines, Sleeps;
    assert Lines(trace[i], ops[i], trace[i + 1], idle) && Lines(trace[j], ops[j], trace[j + 1], idle);
    CallStep(trace[i], ops[i], trace[i + 1], t, idle);
    CallStep(trace[i], ops[i], trace[i + 1], u, idle);
    CallKept(ops, trace, idle, t, i + 1, j);
    CallKept(ops, trace, idle, t, i + 1, k);
    CallRange(ops, trace, idle, u, i + 1, j);
    CallStep(trace[j], ops[j], trace[j + 1], u, idle);
    CallKept(ops, trace, idle, u, j + 1, k);
  }

  lemma {:induction false} CallRange(ops: seq<Op>, trace: seq<Moment>, idle: nat, u: nat, i: nat, j: nat)
    requires Traced(ops, trace, idle) && i <= j < |trace| && u < |trace[i].order.came|
    ensures u < |trace[j].order.came|
    decreases j
  {
    hide MomentOK, Does, Serves, Lines, Sleeps;
    if i < j {
      CallRange(ops, trace, idle, u, i, j - 1);
      assert Lines(trace[j - 1], ops[j - 1], trace[j - 1 + 1], idle);
      CallStep(trace[j - 1], ops[j - 1], trace[j], u, idle);
    }
  }

  /** In every run, if nobody was given a priority while waiting on an event list since that was empty, the task
      that the next event wakes has the highest rank of all that wait there, and came first among its equals. */
  lemma {:induction false} WokenInOrder(ops: seq<Op>, trace: seq<Moment>, idle: nat, e: nat, i: nat, j: nat)
    requires Traced(ops, trace, idle) && i <= j < |trace| && e < |trace[i].w.events| && trace[i].w.events[e] == []
    requires forall k :: i <= k < j ==> !Disturbs(trace[k], ops[k], e)
    ensures Calm(trace[j], e)
    ensures (forall u :: u in trace[j].w.events[e] ==> u !in trace[j].order.odd) ==>
              FirstHighest(trace[j].s.tcb, trace[j].order.came, trace[j].w.events[e])
    ensures forall a :: 1 <= a < |trace[j].w.events[e]| ==>
              Before(trace[j].s.tcb, trace[j].order, trace[j].w.events[e][0], trace[j].w.events[e][a])
    decreases j
  {
    hide MomentOK, Does, Serves, Lines, Disturbs, Before;
    if i < j {
      WokenInOrder(ops, trace, idle, e, i, j - 1);
      assert Lines(trace[j - 1], ops[j - 1], trace[j - 1 + 1], idle);
      StaysCalm(trace[j - 1], ops[j - 1], trace[j], e, idle);
    }
    MomentIs(trace[j]);
    NextIsFirst(trace[j].s, trace[j].w, trace[j].order, e);
  }

  lemma EasedIn(tcb: seq<Tcb>, w: Waits, tcb': seq<Tcb>, w': Waits, e: nat, u: nat)
    requires EventsOK(tcb, w) && EventsOK(tcb', w') && |tcb'| == |tcb| && |w'.events| == |w.events|
    requires (forall u :: 0 <= u < |tcb| ==> Eased(tcb[u], tcb'[u])) && e < |w.events| && u in w'.events[e]
    ensures u in w.events[e]
  {
    assert EventListOK(tcb', w'.events[e], Waiting(e));
    assert EventAt(tcb, w, u);
  }

  /** Lists lose tasks only. */
  lemma EasedEvents(tcb: seq<Tcb>, w: Waits, tcb': seq<Tcb>, w': Waits)
    requires EventsOK(tcb, w) && EventsOK(tcb', w') && |tcb'| == |tcb| && |w'.events| == |w.events|
    requires forall u :: 0 <= u < |tcb| ==> Eased(tcb[u], tcb'[u])
    ensures forall e :: 0 <= e < |w.events| && w.events[e] == [] ==> w'.events[e] == []
  {
    forall e | 0 <= e < |w.events| && w.events[e] == [] ensures w'.events[e] == [] {
      if w'.events[e] != [] { EasedIn(tcb, w, tcb', w', e, w'.events[e][0]); }
    }
  }

  // ---------- The lists of a step ----------

  /** An empty pending list: nobody's event is pending. */
  lemma NonePending(tcb: seq<Tcb>, w: Waits)
    requires EventsOK(tcb, w) && w.pending.items == []
    ensures forall u :: 0 <= u < |tcb| ==> tcb[u].event != Pending
  {
    forall u: nat | u < |tcb| ensures tcb[u].event != Pending { assert EventAt(tcb, w, u); }
  }

  /** Whether a task is ready does not depend on its event item. */
  lemma EventApart(s: Sched, t: nat, place: EventPlace)
    requires t < |s.tcb|
    ensures forall u :: 0 <= u < |s.tcb| ==>
              (IsReady(s.(tcb := s.tcb[t := s.tcb[t].(event := place)]), u) <==> IsReady(s, u))
  {
  }

  lemma JoinedPending(tcb: seq<Tcb>, w: Waits, e: nat, t: nat)
    requires e < |w.events| && t < |tcb|
    ensures |Joined(tcb, w, e, t).events| == |w.events|
    ensures forall k :: 0 <= k < |w.events| && k != e ==> Joined(tcb, w, e, t).events[k] == w.events[k]
    ensures Joined(tcb, w, e, t).pending == w.pending
  {
  }

  lemma PendedItems(r: Ring<nat>, t: nat)
    requires r.Valid()
    ensures forall u :: u in r.InsertEnd(t).items <==> u in r.items || u == t
  {
  }

  lemma PendingValid(tcb: seq<Tcb>, w: Waits, e: nat)
    requires EventsOK(tcb, w) && e < |w.events| && w.events[e] != []
    ensures w.pending.Valid() && w.events[e][0] < |tcb|
  {
    assert EventListOK(tcb, w.events[e], Waiting(e));
  }

  // ---------- Each operation ----------

  method DoTick(k: Kernel)
    requires k.Valid()
    modifies k
    ensures k.Valid() && Does(old(At(k)), Tick, At(k), k.idle) && Serves(old(At(k)), Tick, At(k))
    ensures Lines(old(At(k)), Tick, At(k), k.idle)
  {
    hide Inv, NoneDue, EventsOK, EventBlocked, OrderOK, OnReadyList, Now, Kernel.Sound, Kernel.Valid, Joined, Urgent;
    k.ValidIs();
    k.SoundIs();
    if k.suspended == 0 { NonePending(k.tcb, k.W()); }
    k.TickInterrupt();
    ghost var tcb, w := old(k.tcb), old(k.W());
    k.ValidIs();
    k.SoundIs();
    if old(k.suspended) == 0 { EasedEvents(tcb, w, k.tcb, k.W()); }
  }

  method DoSuspend(k: Kernel)
    requires k.Valid()
    modifies k
    ensures k.Valid() && Does(old(At(k)), Suspend, At(k), k.idle) && Serves(old(At(k)), Suspend, At(k))
    ensures Lines(old(At(k)), Suspend, At(k), k.idle)
  {
    hide Inv, NoneDue, EventsOK, EventBlocked, OrderOK, OnReadyList, Now, Kernel.Sound, Kernel.Valid, Joined, Urgent;
    k.ValidIs();
    k.SoundIs();
    k.SuspendAll();
    k.ValidIs();
    k.SoundIs();
  }

  method DoResume(k: Kernel)
    requires k.Valid() && k.suspended > 0
    modifies k
    ensures k.Valid() && Does(old(At(k)), Resume, At(k), k.idle) && Serves(old(At(k)), Resume, At(k))
    ensures Lines(old(At(k)), Resume, At(k), k.idle)
  {
    hide Inv, NoneDue, EventsOK, EventBlocked, OrderOK, OnReadyList, Now, Kernel.Sound, Kernel.Valid, Joined, Urgent;
    k.ValidIs();
    k.SoundIs();
    var yielded := k.ResumeAll();
    ghost var tcb, w := old(k.tcb), old(k.W());
    k.ValidIs();
    k.SoundIs();
    if old(k.suspended) == 1 { EasedEvents(tcb, w, k.tcb, k.W()); }
  }

  method DoSwitch(k: Kernel)
    requires k.Valid()
    modifies k
    ensures k.Valid() && Does(old(At(k)), Switch, At(k), k.idle) && Serves(old(At(k)), Switch, At(k))
    ensures Lines(old(At(k)), Switch, At(k), k.idle)
  {
    hide Inv, NoneDue, EventsOK, EventBlocked, OrderOK, OnReadyList, Now, Kernel.Sound, Kernel.Valid, Joined, Urgent;
    k.ValidIs();
    k.SoundIs();
    k.SwitchContext();
    k.ValidIs();
    k.SoundIs();
  }

  method DoDelay(k: Kernel, ticks: nat)
    requires k.Valid() && Allowed(At(k), Delay(ticks), k.idle)
    modifies k
    ensures k.Valid() && Does(old(At(k)), Delay(ticks), At(k), k.idle) && Serves(old(At(k)), Delay(ticks), At(k))
    ensures Lines(old(At(k)), Delay(ticks), At(k), k.idle)
  {
    hide Inv, NoneDue, EventsOK, EventBlocked, OrderOK, OnReadyList, Now, Kernel.Sound, Kernel.Valid, Joined, Urgent;
    k.ValidIs();
    k.SoundIs();
    k.DelayCurrent(ticks);
    k.ValidIs();
    k.SoundIs();
  }

  method DoAwait(k: Kernel, e: nat, ticks: nat)
    requires k.Valid() && Allowed(At(k), Await(e, ticks), k.idle)
    modifies k
    ensures k.Valid() && Does(old(At(k)), Await(e, ticks), At(k), k.idle) && Serves(old(At(k)), Await(e, ticks), At(k))
    ensures Lines(old(At(k)), Await(e, ticks), At(k), k.idle)
  {
    hide Inv, NoneDue, EventsOK, EventBlocked, OrderOK, OnReadyList, Kernel.Sound, Kernel.Valid, Joined, Urgent;
    k.ValidIs();
    k.SoundIs();
    EventApart(k.S(), k.current, Waiting(e));
    JoinedPending(k.tcb, k.W(), e, k.current);
    k.PlaceOnEventList(e, ticks);
    k.ValidIs();
    k.SoundIs();
  }

  method DoPost(k: Kernel, e: nat)
    requires k.Valid() && Allowed(At(k), Post(e), k.idle)
    modifies k
    ensures k.Valid() && Does(old(At(k)), Post(e), At(k), k.idle) && Serves(old(At(k)), Post(e), At(k))
    ensures Lines(old(At(k)), Post(e), At(k), k.idle)
  {
    hide Inv, NoneDue, EventsOK, EventBlocked, OrderOK, OnReadyList, Now, Kernel.Sound, Kernel.Valid, Joined, Urgent;
    k.ValidIs();
    k.SoundIs();
    PendingValid(k.tcb, k.W(), e);
    EventApart(k.S(), k.events[e][0], Pending);
    PendedItems(k.pending, k.events[e][0]);
    var higher := k.RemoveFromEventList(e);
    k.ValidIs();
    k.SoundIs();
  }

  method DoSetPriority(k: Kernel, t: nat, p: nat)
    requires k.Valid() && t < |k.tcb|
    modifies k
    ensures k.Valid() && Does(old(At(k)), SetPriority(t, p), At(k), k.idle)
    ensures Serves(old(At(k)), SetPriority(t, p), At(k))
    ensures Lines(old(At(k)), SetPriority(t, p), At(k), k.idle)
  {
    hide Inv, NoneDue, EventsOK, EventBlocked, OrderOK, OnReadyList, Now, Kernel.Sound, Kernel.Valid, Joined, Urgent;
    k.ValidIs();
    k.SoundIs();
    var y := k.PrioritySet(t, p);
    k.ValidIs();
    k.SoundIs();
  }

  method DoInherit(k: Kernel, h: nat)
    requires k.Valid() && h < |k.tcb|
    modifies k
    ensures k.Valid() && Does(old(At(k)), Inherit(h), At(k), k.idle) && Serves(old(At(k)), Inherit(h), At(k))
    ensures Lines(old(At(k)), Inherit(h), At(k), k.idle)
  {
    hide Inv, NoneDue, EventsOK, EventBlocked, OrderOK, OnReadyList, Now, Kernel.Sound, Kernel.Valid, Joined, Urgent;
    k.ValidIs();
    k.SoundIs();
    k.PriorityInherit(h);
    k.ValidIs();
    k.SoundIs();
  }

  method DoDisinherit(k: Kernel, h: nat)
    requires k.Valid() && h < |k.tcb| && IsReady(k.S(), h)
    modifies k
    ensures k.Valid() && Does(old(At(k)), Disinherit(h), At(k), k.idle) && Serves(old(At(k)), Disinherit(h), At(k))
    ensures Lines(old(At(k)), Disinherit(h), At(k), k.idle)
  {
    hide Inv, NoneDue, EventsOK, EventBlocked, OrderOK, OnReadyList, Now, Kernel.Sound, Kernel.Valid, Joined, Urgent;
    k.ValidIs();
    k.SoundIs();
    k.PriorityDisinherit(h);
    k.ValidIs();
    k.SoundIs();
  }

  method DoNewTask(k: Kernel, p: nat)
    requires k.Valid()
    modifies k
    ensures k.Valid() && Does(old(At(k)), NewTask(p), At(k), k.idle) && Serves(old(At(k)), NewTask(p), At(k))
    ensures Lines(old(At(k)), NewTask(p), At(k), k.idle)
  {
    hide Inv, NoneDue, EventsOK, EventBlocked, OrderOK, OnReadyList, Now, Kernel.Sound, Kernel.Valid, Joined, Urgent;
    k.ValidIs();
    k.SoundIs();
    var t, yielded := k.Create(p);
    k.ValidIs();
    k.SoundIs();
  }

  // ---------- Runs ----------

  predicate Listed(k: Kernel, t: nat)
    reads k
  {
    t < |k.tcb| && k.tcb[t].priority < |k.ready| && t in k.ready[k.tcb[t].priority].items
  }

  lemma ListedIs(k: Kernel, t: nat)
    ensures Listed(k, t) <==> IsReady(k.S(), t)
  {
  }

  lemma AtIs(k: Kernel)
    ensures At(k) == Moment(k.S(), k.W(), k.current, k.suspended, k.missed, k.clock, k.order)
  {
  }

  /** Whether the operation may be called now. */
  method MayCall(k: Kernel, op: Op) returns (ok: bool)
    requires k.Valid()
    ensures ok <==> Allowed(At(k), op, k.idle)
  {
    hide Kernel.Valid, OnReadyList;
    ListedIs(k, k.current);
    match op {
      case Tick => ok := true;
      case Suspend => ok := true;
      case Resume => ok := k.suspended > 0;
      case Switch => ok := true;
      case Delay(ticks) => ok :=
          k.suspended > 0 && k.current != k.idle && Listed(k, k.current) && 1 <= ticks < 0x1_0000_0000;
      case Await(e, ticks) => ok :=
          e < |k.events| && k.current != k.idle && Listed(k, k.current) && 1 <= ticks < 0x1_0000_0000;
      case Post(e) => ok := e < |k.events| && k.events[e] != [];
      case SetPriority(t, p) => ok := t < |k.tcb|;
      case Inherit(h) => ok := h < |k.tcb|;
      case Disinherit(h) =>
        ListedIs(k, h);
        ok := h < |k.tcb| && Listed(k, h);
      case NewTask(p) => ok := true;
    }
  }

  lemma RefusedStays(m: Moment, op: Op, idle: nat)
    requires !Allowed(m, op, idle) && MomentOK(m)
    ensures Does(m, op, m, idle) && Serves(m, op, m) && Lines(m, op, m, idle)
  {
    assert |m.s.ready| == 7;
    hide OnReadyList, Now, Round, MomentOK;
  }

  lemma AllowedIs(m: Moment, op: Op, idle: nat)
    requires Allowed(m, op, idle)
    ensures op.Resume? ==> m.suspended > 0
    ensures op.SetPriority? ==> op.task < |m.s.tcb|
    ensures op.Inherit? ==> op.holder < |m.s.tcb|
    ensures op.Disinherit? ==> op.holder < |m.s.tcb| && IsReady(m.s, op.holder)
  {
    hide OnReadyList;
  }

  /** One operation, if it may be called. */
  method Perform(k: Kernel, op: Op)
    requires k.Valid()
    modifies k
    ensures k.Valid() && Does(old(At(k)), op, At(k), k.idle) && Serves(old(At(k)), op, At(k))
    ensures Lines(old(At(k)), op, At(k), k.idle)
  {
    hide *;
    AtIs(k);
    k.SIs();
    var ok := MayCall(k, op);
    if !ok {
      ValidMoment(k);
      RefusedStays(At(k), op, k.idle);
    } else {
      AllowedIs(At(k), op, k.idle);
      match op {
        case Tick => DoTick(k);
        case Suspend => DoSuspend(k);
        case Resume => DoResume(k);
        case Switch => DoSwitch(k);
        case Delay(ticks) => DoDelay(k, ticks);
        case Await(e, ticks) => DoAwait(k, e, ticks);
        case Post(e) => DoPost(k, e);
        case SetPriority(t, p) => DoSetPriority(k, t, p);
        case Inherit(h) => DoInherit(k, h);
        case Disinherit(h) => DoDisinherit(k, h);
        case NewTask(p) => DoNewTask(k, p);
      }
    }
  }

  lemma TracedStart(m: Moment, idle: nat)
    requires MomentOK(m)
    ensures Traced([], [m], idle)
  {
    hide MomentOK;
  }

  lemma TracedNext(ops: seq<Op>, trace: seq<Moment>, op: Op, m: Moment, idle: nat)
    requires Traced(ops, trace, idle) && MomentOK(m) && Does(trace[|ops|], op, m, idle) && Serves(trace[|ops|], op, m)
    requires Lines(trace[|ops|], op, m, idle)
    ensures Traced(ops + [op], trace + [m], idle)
  {
    hide MomentOK, Does, Serves, Lines;
    var ops', trace' := ops + [op], trace + [m];
    forall i | 0 <= i < |ops'| ensures Does(trace'[i], ops'[i], trace'[i + 1], idle) {
      if i < |ops| { assert Does(trace[i], ops[i], trace[i + 1], idle); }
    }
    forall i | 0 <= i < |ops'| ensures Lines(trace'[i], ops'[i], trace'[i + 1], idle) {
      if i < |ops| { assert Lines(trace[i], ops[i], trace[i + 1], idle); }
    }
    forall i | 0 <= i < |ops'| ensures Serves(trace'[i], ops'[i], trace'[i + 1]) {
      if i < |ops| { assert Serves(trace[i], ops[i], trace[i + 1]); }
    }
  }

  /** Any sequence of operations, from any kernel between calls. */
  method Run(k: Kernel, ops: seq<Op>) returns (ghost trace: seq<Moment>)
    requires k.Valid()
    modifies k
    ensures k.Valid() && Traced(ops, trace, k.idle) && trace[0] == old(At(k)) && trace[|ops|] == At(k)
  {
    hide *;
    ValidMoment(k);
    TracedStart(At(k), k.idle);
    trace := [At(k)];
    for i := 0 to |ops|
      invariant k.Valid() && |trace| == i + 1 && Traced(ops[..i], trace, k.idle) && trace[0] == old(At(k))
      invariant trace[i] == At(k)
    {
      Perform(k, ops[i]);
      ValidMoment(k);
      TracedNext(ops[..i], trace, ops[i], At(k), k.idle);
      trace := trace + [At(k)];
      assert ops[..i] + [ops[i]] == ops[..i + 1];
    }
    assert ops[..|ops|] == ops;
  }

}
