/** Tasks and interrupts using one queue: the atomic steps of the blocking calls, in any order. */
module KernelQueueProtocol {
  import opened Bytes
  import opened Seqs
  import opened KernelQueue

  /** What a task calls the queue for. */
  datatype Op = Receiving | Peeking | Sending(item: seq<byte>, front: bool)

  /** What a task does after unlocking the queue: try again (perhaps after being woken), or give up. */
  datatype After = Again | GiveUp

  /** Where a task is in a call: each constructor is the next atomic step. From `Locking` to
      `Resuming` it has the scheduler suspended. */
  datatype Pc = Outside | Trying(op: Op) | Suspending(op: Op) | Locking(op: Op) | CheckingTime(op: Op)
              | CheckingQueue(op: Op) | Placing(op: Op) | UnlockingTx(op: Op, next: After)
              | UnlockingRx(op: Op, next: After) | Resuming(op: Op, next: After)

  /** `owner` is the task that has the scheduler suspended, -1 if there is none; the sets hold the
      tasks that an event has woken and that have not tried again yet. */
  datatype Net = Net(
    q: Q, pc: seq<Pc>, owner: int, wokenRecv: set<nat>, wokenSend: set<nat>,
    sent: multiset<seq<byte>>, received: multiset<seq<byte>>)

  datatype Step =
    | Call(t: nat, op: Op) | Try(t: nat, wait: bool) | Suspend(t: nat) | LockUp(t: nat)
    | CheckTime(t: nat, expired: bool) | CheckQueue(t: nat) | Place(t: nat, at: nat)
    | UnlockFirst(t: nat) | UnlockSecond(t: nat) | Resume(t: nat)
    | IsrSend(item: seq<byte>, front: bool) | IsrReceive | TimeOut(t: nat)

  ghost predicate OnList(s: Net, t: nat) { t in s.q.waitRecv || t in s.q.waitSend }

  /** A task that is not blocked runs only while nobody else has suspended the scheduler. */
  ghost predicate Runs(s: Net, t: nat) { t < |s.pc| && (s.owner == -1 || s.owner == t) }

  ghost predicate Enabled(s: Net, step: Step) {
    match step
    case Call(t, op) => Runs(s, t) && s.pc[t].Outside?
    case Try(t, wait) => Runs(s, t) && s.pc[t].Trying? && !OnList(s, t)
    case Suspend(t) => Runs(s, t) && s.pc[t].Suspending?
    case LockUp(t) => Runs(s, t) && s.pc[t].Locking?
    case CheckTime(t, expired) => Runs(s, t) && s.pc[t].CheckingTime?
    case CheckQueue(t) => Runs(s, t) && s.pc[t].CheckingQueue?
    case Place(t, at) =>
      Runs(s, t) && s.pc[t].Placing? && at <= |(if s.pc[t].op.Sending? then s.q.waitSend else s.q.waitRecv)|
    case UnlockFirst(t) => Runs(s, t) && s.pc[t].UnlockingTx?
    case UnlockSecond(t) => Runs(s, t) && s.pc[t].UnlockingRx?
    case Resume(t) => Runs(s, t) && s.pc[t].Resuming?
    case IsrSend(item, front) => !Full(s.q)
    case IsrReceive => s.q.items != []
    case TimeOut(t) => s.owner == -1 && OnList(s, t)
  }

  ghost function Set(list: seq<nat>): set<nat> { set t | t in list }

  ghost function Without(list: seq<nat>, t: nat): seq<nat> {
    if list == [] then [] else if list[0] == t then list[1..] else [list[0]] + Without(list[1..], t)
  }

  ghost function At(s: Net, t: nat, pc: Pc): Net
    requires t < |s.pc|
  {
    s.(pc := s.pc[t := pc])
  }

  /** The first critical section of a call: serve it if the queue allows, else return or go on to block. */
  ghost function Tried(s: Net, t: nat, wait: bool): Net
    requires t < |s.pc| && s.pc[t].Trying?
  {
    var op := s.pc[t].op;
    var s1 := s.(wokenRecv := s.wokenRecv - {t}, wokenSend := s.wokenSend - {t});
    var failed := At(s1, t, if wait then Suspending(op) else Outside);
    match op
    case Sending(item, front) =>
      if Full(s.q) then failed
      else
        var o := Send(s.q, item, front);
        At(s1.(q := o.q, wokenRecv := s1.wokenRecv + Set(o.woken), sent := s.sent + multiset{item}), t, Outside)
    case Receiving =>
      if s.q.items == [] then failed
      else
        var o := Receive(s.q);
        At(s1.(q := o.q, wokenSend := s1.wokenSend + Set(o.woken), received := s.received + multiset{s.q.items[0]}), t,
           Outside)
    case Peeking =>
      if s.q.items == [] then failed
      else
        var o := Peek(s.q);
        At(s1.(q := o.q, wokenRecv := s1.wokenRecv + Set(o.woken)), t, Outside)
  }

  ghost function InsertedAt(list: seq<nat>, at: nat, t: nat): seq<nat>
    requires at <= |list|
  {
    list[..at] + [t] + list[at..]
  }

  ghost function Placed(s: Net, t: nat, at: nat): Net
    requires t < |s.pc| && s.pc[t].Placing? && at <= |(if s.pc[t].op.Sending? then s.q.waitSend else s.q.waitRecv)|
  {
    var op := s.pc[t].op;
    var q := if op.Sending? then s.q.(waitSend := InsertedAt(s.q.waitSend, at, t))
             else s.q.(waitRecv := InsertedAt(s.q.waitRecv, at, t));
    At(s.(q := q), t, UnlockingTx(op, Again))
  }

  ghost function Do(s: Net, step: Step): Net
    requires Enabled(s, step)
  {
    match step
    case Call(t, op) => At(s, t, Trying(op))
    case Try(t, wait) => Tried(s, t, wait)
    case Suspend(t) => At(s.(owner := t), t, Locking(s.pc[t].op))
    case LockUp(t) => At(s.(q := Lock(s.q)), t, CheckingTime(s.pc[t].op))
    case CheckTime(t, expired) =>
      At(s, t, if expired then UnlockingTx(s.pc[t].op, GiveUp) else CheckingQueue(s.pc[t].op))
    case CheckQueue(t) =>
      var op := s.pc[t].op;
      At(s, t, if (if op.Sending? then Full(s.q) else s.q.items == []) then Placing(op) else UnlockingTx(op, Again))
    case Place(t, at) => Placed(s, t, at)
    case UnlockFirst(t) =>
      var o := UnlockTx(s.q);
      At(s.(q := o.q, wokenRecv := s.wokenRecv + Set(o.woken)), t, UnlockingRx(s.pc[t].op, s.pc[t].next))
    case UnlockSecond(t) =>
      var o := UnlockRx(s.q);
      At(s.(q := o.q, wokenSend := s.wokenSend + Set(o.woken)), t, Resuming(s.pc[t].op, s.pc[t].next))
    case Resume(t) => At(s.(owner := -1), t, if s.pc[t].next.Again? then Trying(s.pc[t].op) else Outside)
    case IsrSend(item, front) =>
      var o := SendFromIsr(s.q, item, front);
      s.(q := o.q, wokenRecv := s.wokenRecv + Set(o.woken), sent := s.sent + multiset{item})
    case IsrReceive =>
      var o := ReceiveFromIsr(s.q);
      s.(q := o.q, wokenSend := s.wokenSend + Set(o.woken), received := s.received + multiset{s.q.items[0]})
    case TimeOut(t) => s.(q := s.q.(waitRecv := Without(s.q.waitRecv, t), waitSend := Without(s.q.waitSend, t)))
  }

  // ---------- The invariant ----------

  /** While tasks sleep for something, there is no more of it than tasks woken for it that have not
      tried again yet and events that the lock still has to announce. */
  ghost predicate Served(list: seq<nat>, woken: set<nat>, amount: int, lock: int) {
    list != [] ==> amount <= |woken| + Positive(lock)
  }

  /** A task about to sleep has seen the queue empty (full); what has come (gone) since is counted. */
  ghost predicate SafeToSleep(q: Q, pc: Pc) {
    pc.Placing? ==>
      if pc.op.Sending? then q.length - |q.items| <= Positive(q.rxLock) else |q.items| <= Positive(q.txLock)
  }

  ghost predicate InSection(pc: Pc) {
    || pc.Locking? || pc.CheckingTime? || pc.CheckingQueue? || pc.Placing? || pc.UnlockingTx? || pc.UnlockingRx?
    || pc.Resuming?
  }

  /** The lock counters follow the section of the owner. */
  ghost predicate LocksOK(q: Q, pc: Pc) {
    && (q.txLock >= 0 <==> pc.CheckingTime? || pc.CheckingQueue? || pc.Placing? || pc.UnlockingTx?)
    && (q.rxLock >= 0 <==> pc.CheckingTime? || pc.CheckingQueue? || pc.Placing? || pc.UnlockingTx? || pc.UnlockingRx?)
    && q.txLock >= -1 && q.rxLock >= -1
  }

  /** Where a task that is on a list, or was woken from one, can be. */
  ghost predicate Waits(pc: Pc, sending: bool) {
    && (pc.Trying? || ((pc.UnlockingTx? || pc.UnlockingRx? || pc.Resuming?) && pc.next.Again?))
    && pc.op.Sending? == sending
  }

  /** Sleeping and woken tasks are in such a place, and nobody is both. */
  ghost predicate ListsOK(pc: seq<Pc>, list: seq<nat>, woken: set<nat>, sending: bool) {
    && Distinct(list)
    && (forall t :: t in list ==> t < |pc| && Waits(pc[t], sending) && t !in woken)
    && (forall t :: t in woken ==> t < |pc| && Waits(pc[t], sending))
  }

  /** One direction of the queue: who waits, who was woken, and how much there is to wait for. */
  ghost predicate SideOK(pc: seq<Pc>, list: seq<nat>, woken: set<nat>, amount: int, lock: int, sending: bool) {
    ListsOK(pc, list, woken, sending) && Served(list, woken, amount, lock)
  }

  ghost predicate SectionOK(s: Net) {
    && (s.owner == -1 || 0 <= s.owner < |s.pc|)
    && LocksOK(s.q, if 0 <= s.owner < |s.pc| then s.pc[s.owner] else Outside)
    && (0 <= s.owner < |s.pc| ==> InSection(s.pc[s.owner]) && SafeToSleep(s.q, s.pc[s.owner]))
    && (forall t :: 0 <= t < |s.pc| && t != s.owner ==> !InSection(s.pc[t]))
  }

  ghost predicate Inv(s: Net) {
    && |s.q.items| <= s.q.length
    && SectionOK(s)
    && SideOK(s.pc, s.q.waitRecv, s.wokenRecv, |s.q.items|, s.q.txLock, false)
    && SideOK(s.pc, s.q.waitSend, s.wokenSend, s.q.length - |s.q.items|, s.q.rxLock, true)
  }

  /** Nothing is lost or duplicated. */
  ghost predicate Conserved(s: Net) {
    s.sent == s.received + multiset(s.q.items)
  }

  // ---------- Lists and sets ----------

  lemma {:induction false} SetSize(list: seq<nat>)
    requires Distinct(list)
    ensures |Set(list)| == |list|
  {
    if list != [] {
      var n := |list| - 1;
      SetSize(list[..n]);
      assert list == list[..n] + [list[n]];
      assert Set(list) == Set(list[..n]) + {list[n]};
    }
  }

  /** Waking the first `n` tasks of a list. */
  lemma WakeFirst(pc: seq<Pc>, list: seq<nat>, woken: set<nat>, sending: bool, n: nat)
    requires ListsOK(pc, list, woken, sending) && n <= |list|
    ensures ListsOK(pc, list[n..], woken + Set(list[..n]), sending)
    ensures |woken + Set(list[..n])| == |woken| + n
  {
    SetSize(list[..n]);
    var head, tail := list[..n], list[n..];
    assert woken !! Set(head);
    forall t | t in tail ensures t in list && t !in head {
      var i :| 0 <= i < |tail| && tail[i] == t;
      assert list[n + i] == t;
    }
    assert Distinct(tail);
    hide Waits;
  }

  lemma {:induction false} WithoutIs(list: seq<nat>, t: nat)
    requires Distinct(list)
    ensures Distinct(Without(list, t)) && forall u :: u in Without(list, t) <==> u in list && u != t
  {
    if list != [] {
      var head, tail := list[0], list[1..];
      assert list == [head] + tail && head !in tail;
      WithoutIs(tail, t);
      var rest := Without(tail, t);
      if head != t {
        assert head !in rest;
        assert Without(list, t) == [head] + rest;
        hide *;
        DistinctCons(head, rest);
      }
    }
  }

  // ---------- One direction of the queue ----------

  /** A task moves on; it stays where it can wait, or cannot wait before and after. */
  lemma SideMoves(pc: seq<Pc>, list: seq<nat>, woken: set<nat>, amount: int, lock: int, sending: bool, t: nat, new': Pc)
    requires SideOK(pc, list, woken, amount, lock, sending) && t < |pc|
    requires Waits(pc[t], sending) ==> Waits(new', sending)
    ensures SideOK(pc[t := new'], list, woken, amount, lock, sending)
  {
    hide Waits;
  }

  /** A task that tries again is no longer counted as woken, and can go anywhere; if it was woken,
      it has taken what it was woken for, or there is nothing left. */
  lemma SideRetries(pc: seq<Pc>, list: seq<nat>, woken: set<nat>, amount: int, lock: int, sending: bool, t: nat,
                    new': Pc, amount': int)
    requires SideOK(pc, list, woken, amount, lock, sending) && t < |pc| && t !in list
    requires amount' <= amount && (t in woken ==> amount' < amount || amount' <= 0)
    ensures SideOK(pc[t := new'], list, woken - {t}, amount', lock, sending)
  {
    hide Waits;
    if t in woken { assert |woken - {t}| == |woken| - 1; } else { assert woken - {t} == woken; }
  }

  /** A task that cannot be waiting is not in the way. */
  lemma NotWaiting(pc: seq<Pc>, list: seq<nat>, woken: set<nat>, amount: int, lock: int, sending: bool, t: nat)
    requires SideOK(pc, list, woken, amount, lock, sending) && t < |pc| && !Waits(pc[t], sending)
    ensures t !in list && t !in woken
  {
  }

  /** One more to wait for, and the first sleeper, if any, woken for it. */
  lemma SideWakes(pc: seq<Pc>, list: seq<nat>, woken: set<nat>, amount: int, lock: int, sending: bool)
    requires SideOK(pc, list, woken, amount, lock, sending)
    ensures SideOK(pc, Rest(list), woken + Set(Head(list)), amount + 1, lock, sending)
  {
    WakeFirst(pc, list, woken, sending, |Head(list)|);
    assert Head(list) == list[..|Head(list)|] && Rest(list) == list[|Head(list)|..];
    hide ListsOK, Set;
  }

  ghost function Head(list: seq<nat>): seq<nat> { if list == [] then [] else [list[0]] }

  ghost function Rest(list: seq<nat>): seq<nat> { if list == [] then [] else list[1..] }

  /** The first sleeper woken without anything new: what a peek hands on. */
  lemma SideHandsOn(pc: seq<Pc>, list: seq<nat>, woken: set<nat>, amount: int, lock: int, sending: bool, t: nat,
                    new': Pc)
    requires SideOK(pc, list, woken, amount, lock, sending) && t < |pc| && t !in list
    ensures SideOK(pc[t := new'], Rest(list), woken - {t} + Set(Head(list)), amount, lock, sending)
  {
    SideRetries(pc, list, woken, amount, lock, sending, t, new', amount - 1);
    SideWakes(pc[t := new'], list, woken - {t}, amount - 1, lock, sending);
  }

  /** One more to wait for, counted by the lock. */
  lemma SideCounts(pc: seq<Pc>, list: seq<nat>, woken: set<nat>, amount: int, lock: int, sending: bool)
    requires SideOK(pc, list, woken, amount, lock, sending) && lock >= 0
    ensures SideOK(pc, list, woken, amount + 1, lock + 1, sending)
  {
    hide ListsOK;
  }

  lemma SideLess(pc: seq<Pc>, list: seq<nat>, woken: set<nat>, amount: int, amount': int, lock: int, lock': int,
                 sending: bool)
    requires SideOK(pc, list, woken, amount, lock, sending) && amount' <= amount && Positive(lock') == Positive(lock)
    ensures SideOK(pc, list, woken, amount', lock', sending)
  {
    hide ListsOK;
  }

  /** Unlocking wakes as many as the lock has counted, or all. */
  lemma SideUnlocks(pc: seq<Pc>, list: seq<nat>, woken: set<nat>, amount: int, lock: int, sending: bool, n: nat)
    requires SideOK(pc, list, woken, amount, lock, sending)
    requires n == if lock <= 0 then 0 else if lock <= |list| then lock else |list|
    ensures SideOK(pc, list[n..], woken + Set(list[..n]), amount, -1, sending)
  {
    WakeFirst(pc, list, woken, sending, n);
    hide ListsOK, Set;
  }

  /** A task goes to sleep when the lock has counted all there is. */
  lemma SidePlaces(pc: seq<Pc>, list: seq<nat>, woken: set<nat>, amount: int, lock: int, sending: bool, t: nat, at: nat,
                   new': Pc)
    requires SideOK(pc, list, woken, amount, lock, sending) && t < |pc| && at <= |list|
    requires !Waits(pc[t], sending) && Waits(new', sending) && amount <= Positive(lock)
    ensures SideOK(pc[t := new'], InsertedAt(list, at, t), woken, amount, lock, sending)
  {
    NotWaiting(pc, list, woken, amount, lock, sending, t);
    assert list == list[..at] + list[at..];
    var list' := InsertedAt(list, at, t);
    assert Distinct(list') && forall u :: u in list' <==> u in list || u == t;
    hide Waits, InsertedAt;
  }

  /** A sleeper whose time is over leaves. */
  lemma SideDrops(pc: seq<Pc>, list: seq<nat>, woken: set<nat>, amount: int, lock: int, sending: bool, t: nat)
    requires SideOK(pc, list, woken, amount, lock, sending)
    ensures SideOK(pc, Without(list, t), woken, amount, lock, sending)
  {
    WithoutIs(list, t);
    hide Waits, Without;
  }

  // ---------- Every step keeps the invariant ----------

  lemma SectionAlone(s: Net, s': Net, t: nat)
    requires SectionOK(s) && t < |s.pc| && |s'.pc| == |s.pc|
    requires forall u :: 0 <= u < |s.pc| && u != t ==> s'.pc[u] == s.pc[u]
    requires (s.owner == t || s.owner == -1) && (s'.owner == t || s'.owner == -1)
    requires s'.owner == t ==> InSection(s'.pc[t]) && LocksOK(s'.q, s'.pc[t]) && SafeToSleep(s'.q, s'.pc[t])
    requires s'.owner == -1 ==> !InSection(s'.pc[t]) && s'.q.txLock == -1 && s'.q.rxLock == -1
    ensures SectionOK(s')
  {
  }

  /** What is known of a task that runs: it has suspended the scheduler, or nobody has. */
  lemma RunnerIs(s: Net, t: nat)
    requires SectionOK(s) && Runs(s, t)
    ensures s.owner == t <==> InSection(s.pc[t])
    ensures s.owner == t ==> LocksOK(s.q, s.pc[t]) && SafeToSleep(s.q, s.pc[t])
    ensures s.owner == -1 ==> s.q.txLock == -1 && s.q.rxLock == -1
  {
  }

  lemma TrySendKeeps(s: Net, t: nat, wait: bool)
    requires Inv(s) && Enabled(s, Try(t, wait)) && s.pc[t].op.Sending? && !Full(s.q)
    ensures Inv(Tried(s, t, wait)) && (Conserved(s) ==> Conserved(Tried(s, t, wait)))
  {
    var s', op, n := Tried(s, t, wait), s.pc[t].op, |s.q.items|;
    RunnerIs(s, t);
    NotWaiting(s.pc, s.q.waitRecv, s.wokenRecv, n, s.q.txLock, false, t);
    SideRetries(s.pc, s.q.waitRecv, s.wokenRecv, n, s.q.txLock, false, t, Outside, n);
    SideWakes(s'.pc, s.q.waitRecv, s.wokenRecv - {t}, n, s.q.txLock, false);
    SideRetries(s.pc, s.q.waitSend, s.wokenSend, s.q.length - n, s.q.rxLock, true, t, Outside, s.q.length - n - 1);
    SectionAlone(s, s', t);
    OneSent(s, s', op.item, op.front);
    hide SideOK, SectionOK, Set, Conserved;
  }

  lemma TryReceiveKeeps(s: Net, t: nat, wait: bool)
    requires Inv(s) && Enabled(s, Try(t, wait)) && s.pc[t].op.Receiving? && s.q.items != []
    ensures Inv(Tried(s, t, wait)) && (Conserved(s) ==> Conserved(Tried(s, t, wait)))
  {
    hide SideOK, SectionOK, Set, Conserved, SafeToSleep, LocksOK;
    var s', n := Tried(s, t, wait), |s.q.items|;
    RunnerIs(s, t);
    NotWaiting(s.pc, s.q.waitSend, s.wokenSend, s.q.length - n, s.q.rxLock, true, t);
    SideRetries(s.pc, s.q.waitRecv, s.wokenRecv, n, s.q.txLock, false, t, Outside, n - 1);
    SideRetries(s.pc, s.q.waitSend, s.wokenSend, s.q.length - n, s.q.rxLock, true, t, Outside, s.q.length - n);
    SideWakes(s'.pc, s.q.waitSend, s.wokenSend - {t}, s.q.length - n, s.q.rxLock, true);
    SectionAlone(s, s', t);
    OneReceived(s, s');
  }

  lemma OneReceived(s: Net, s': Net)
    requires s.q.items != [] && s'.q.items == s.q.items[1..] && s'.sent == s.sent
    requires s'.received == s.received + multiset{s.q.items[0]}
    ensures Conserved(s) ==> Conserved(s')
  {
    assert s.q.items == [s.q.items[0]] + s.q.items[1..];
  }

  lemma OneSent(s: Net, s': Net, item: seq<byte>, front: bool)
    requires s'.q.items == (if front then [item] + s.q.items else s.q.items + [item])
    requires s'.received == s.received && s'.sent == s.sent + multiset{item}
    ensures Conserved(s) ==> Conserved(s')
  {
    if front { assert multiset([item] + s.q.items) == multiset{item} + multiset(s.q.items); }
  }

  /** An interrupt counts what a task about to sleep has not seen. */
  lemma IsrSection(s: Net, s': Net)
    requires SectionOK(s) && s'.pc == s.pc && s'.owner == s.owner && s'.q.length == s.q.length
    requires || (&& |s'.q.items| == |s.q.items| + 1 && s'.q.rxLock == s.q.rxLock
                 && s'.q.txLock == if s.q.txLock == -1 then -1 else s.q.txLock + 1)
             || (&& |s'.q.items| == |s.q.items| - 1 && s'.q.txLock == s.q.txLock
                 && s'.q.rxLock == if s.q.rxLock == -1 then -1 else s.q.rxLock + 1)
    ensures SectionOK(s')
  {
  }

  lemma TryPeekKeeps(s: Net, t: nat, wait: bool)
    requires Inv(s) && Enabled(s, Try(t, wait)) && s.pc[t].op.Peeking? && s.q.items != []
    ensures Inv(Tried(s, t, wait)) && (Conserved(s) ==> Conserved(Tried(s, t, wait)))
  {
    var s', n := Tried(s, t, wait), |s.q.items|;
    RunnerIs(s, t);
    NotWaiting(s.pc, s.q.waitSend, s.wokenSend, s.q.length - n, s.q.rxLock, true, t);
    SideHandsOn(s.pc, s.q.waitRecv, s.wokenRecv, n, s.q.txLock, false, t, Outside);
    SideRetries(s.pc, s.q.waitSend, s.wokenSend, s.q.length - n, s.q.rxLock, true, t, Outside, s.q.length - n);
    SectionAlone(s, s', t);
    hide SideOK, SectionOK, Set;
  }

  /** Nothing for the task: it returns, or goes on to sleep. */
  lemma TryFails(s: Net, t: nat, wait: bool)
    requires Inv(s) && Enabled(s, Try(t, wait)) && (if s.pc[t].op.Sending? then Full(s.q) else s.q.items == [])
    ensures Inv(Tried(s, t, wait)) && (Conserved(s) ==> Conserved(Tried(s, t, wait)))
  {
    var s', n, op := Tried(s, t, wait), |s.q.items|, s.pc[t].op;
    var pc := if wait then Suspending(op) else Outside;
    RunnerIs(s, t);
    if op.Sending? {
      NotWaiting(s.pc, s.q.waitRecv, s.wokenRecv, n, s.q.txLock, false, t);
    } else {
      NotWaiting(s.pc, s.q.waitSend, s.wokenSend, s.q.length - n, s.q.rxLock, true, t);
    }
    SideRetries(s.pc, s.q.waitRecv, s.wokenRecv, n, s.q.txLock, false, t, pc, n);
    SideRetries(s.pc, s.q.waitSend, s.wokenSend, s.q.length - n, s.q.rxLock, true, t, pc, s.q.length - n);
    SectionAlone(s, s', t);
    hide SideOK, SectionOK;
  }

  lemma TryKeeps(s: Net, t: nat, wait: bool)
    requires Inv(s) && Enabled(s, Try(t, wait))
    ensures Inv(Do(s, Try(t, wait))) && (Conserved(s) ==> Conserved(Do(s, Try(t, wait))))
  {
    hide Inv, Conserved, Tried;
    if if s.pc[t].op.Sending? then Full(s.q) else s.q.items == [] {
      TryFails(s, t, wait);
    } else {
      match s.pc[t].op
      case Sending(_, _) => TrySendKeeps(s, t, wait);
      case Receiving => TryReceiveKeeps(s, t, wait);
      case Peeking => TryPeekKeeps(s, t, wait);
    }
  }

  /** The steps that neither touch the queue's contents nor its lists. */
  lemma MoveKeeps(s: Net, step: Step)
    requires Inv(s) && Enabled(s, step)
    requires step.Call? || step.Suspend? || step.LockUp? || step.CheckTime? || step.CheckQueue? || step.Resume?
    ensures Inv(Do(s, step)) && (Conserved(s) ==> Conserved(Do(s, step)))
  {
    var s', t, n := Do(s, step), step.t, |s.q.items|;
    RunnerIs(s, t);
    SideMoves(s.pc, s.q.waitRecv, s.wokenRecv, n, s.q.txLock, false, t, s'.pc[t]);
    SideMoves(s.pc, s.q.waitSend, s.wokenSend, s.q.length - n, s.q.rxLock, true, t, s'.pc[t]);
    SideLess(s'.pc, s.q.waitRecv, s.wokenRecv, n, n, s.q.txLock, s'.q.txLock, false);
    SideLess(s'.pc, s.q.waitSend, s.wokenSend, s.q.length - n, s.q.length - n, s.q.rxLock, s'.q.rxLock, true);
    SectionAlone(s, s', t);
    hide SideOK, SectionOK;
  }

  lemma PlaceKeeps(s: Net, t: nat, at: nat)
    requires Inv(s) && Enabled(s, Place(t, at))
    ensures Inv(Placed(s, t, at)) && (Conserved(s) ==> Conserved(Placed(s, t, at)))
  {
    var s', n := Placed(s, t, at), |s.q.items|;
    RunnerIs(s, t);
    if s.pc[t].op.Sending? {
      SideMoves(s.pc, s.q.waitRecv, s.wokenRecv, n, s.q.txLock, false, t, s'.pc[t]);
      SidePlaces(s.pc, s.q.waitSend, s.wokenSend, s.q.length - n, s.q.rxLock, true, t, at, s'.pc[t]);
    } else {
      SidePlaces(s.pc, s.q.waitRecv, s.wokenRecv, n, s.q.txLock, false, t, at, s'.pc[t]);
      SideMoves(s.pc, s.q.waitSend, s.wokenSend, s.q.length - n, s.q.rxLock, true, t, s'.pc[t]);
    }
    SectionAlone(s, s', t);
    hide SideOK, SectionOK, InsertedAt;
  }

  lemma UnlockFirstKeeps(s: Net, t: nat)
    requires Inv(s) && Enabled(s, UnlockFirst(t))
    ensures Inv(Do(s, UnlockFirst(t))) && (Conserved(s) ==> Conserved(Do(s, UnlockFirst(t))))
  {
    var s', n := Do(s, UnlockFirst(t)), |s.q.items|;
    RunnerIs(s, t);
    SideMoves(s.pc, s.q.waitRecv, s.wokenRecv, n, s.q.txLock, false, t, s'.pc[t]);
    SideMoves(s.pc, s.q.waitSend, s.wokenSend, s.q.length - n, s.q.rxLock, true, t, s'.pc[t]);
    SideUnlocks(s'.pc, s.q.waitRecv, s.wokenRecv, n, s.q.txLock, false, |UnlockTx(s.q).woken|);
    SectionAlone(s, s', t);
    hide SideOK, SectionOK, Set;
  }

  lemma UnlockSecondKeeps(s: Net, t: nat)
    requires Inv(s) && Enabled(s, UnlockSecond(t))
    ensures Inv(Do(s, UnlockSecond(t))) && (Conserved(s) ==> Conserved(Do(s, UnlockSecond(t))))
  {
    var s', n := Do(s, UnlockSecond(t)), |s.q.items|;
    RunnerIs(s, t);
    SideMoves(s.pc, s.q.waitRecv, s.wokenRecv, n, s.q.txLock, false, t, s'.pc[t]);
    SideMoves(s.pc, s.q.waitSend, s.wokenSend, s.q.length - n, s.q.rxLock, true, t, s'.pc[t]);
    SideUnlocks(s'.pc, s.q.waitSend, s.wokenSend, s.q.length - n, s.q.rxLock, true, |UnlockRx(s.q).woken|);
    SectionAlone(s, s', t);
    hide SideOK, SectionOK, Set;
  }

  lemma IsrSendKeeps(s: Net, item: seq<byte>, front: bool)
    requires Inv(s) && !Full(s.q)
    ensures Inv(Do(s, IsrSend(item, front))) && (Conserved(s) ==> Conserved(Do(s, IsrSend(item, front))))
  {
    hide SideOK, SectionOK, Set, Conserved;
    var s', n := Do(s, IsrSend(item, front)), |s.q.items|;
    LocksAtLeast(s);
    if s.q.txLock == -1 {
      SideWakes(s.pc, s.q.waitRecv, s.wokenRecv, n, s.q.txLock, false);
    } else {
      SideCounts(s.pc, s.q.waitRecv, s.wokenRecv, n, s.q.txLock, false);
      NobodyWoken(s.wokenRecv);
    }
    SideLess(s.pc, s.q.waitSend, s.wokenSend, s.q.length - n, s.q.length - n - 1, s.q.rxLock, s.q.rxLock, true);
    IsrSection(s, s');
    OneSent(s, s', item, front);
  }

  lemma LocksAtLeast(s: Net)
    requires SectionOK(s)
    ensures s.q.txLock >= -1 && s.q.rxLock >= -1
  {
  }

  lemma NobodyWoken(woken: set<nat>)
    ensures woken + Set([]) == woken
  {
  }

  lemma IsrReceiveKeeps(s: Net)
    requires Inv(s) && s.q.items != []
    ensures Inv(Do(s, IsrReceive)) && (Conserved(s) ==> Conserved(Do(s, IsrReceive)))
  {
    hide SideOK, SectionOK, Set, Conserved;
    var s', n := Do(s, IsrReceive), |s.q.items|;
    LocksAtLeast(s);
    if s.q.rxLock == -1 {
      SideWakes(s.pc, s.q.waitSend, s.wokenSend, s.q.length - n, s.q.rxLock, true);
    } else {
      SideCounts(s.pc, s.q.waitSend, s.wokenSend, s.q.length - n, s.q.rxLock, true);
      NobodyWoken(s.wokenSend);
    }
    SideLess(s.pc, s.q.waitRecv, s.wokenRecv, n, n - 1, s.q.txLock, s.q.txLock, false);
    IsrSection(s, s');
    OneReceived(s, s');
  }

  lemma TimeOutKeeps(s: Net, t: nat)
    requires Inv(s) && Enabled(s, TimeOut(t))
    ensures Inv(Do(s, TimeOut(t))) && (Conserved(s) ==> Conserved(Do(s, TimeOut(t))))
  {
    var n := |s.q.items|;
    SideDrops(s.pc, s.q.waitRecv, s.wokenRecv, n, s.q.txLock, false, t);
    SideDrops(s.pc, s.q.waitSend, s.wokenSend, s.q.length - n, s.q.rxLock, true, t);
    hide SideOK, Without;
  }

  /** Every step of a task or an interrupt keeps the invariant and the items. */
  lemma StepKeeps(s: Net, step: Step)
    requires Inv(s) && Enabled(s, step)
    ensures Inv(Do(s, step)) && (Conserved(s) ==> Conserved(Do(s, step)))
  {
    hide Inv, Conserved, Do, Enabled;
    match step
    case Try(t, wait) => TryKeeps(s, t, wait);
    case Place(t, at) => PlaceIs(s, t, at); PlaceKeeps(s, t, at);
    case UnlockFirst(t) => UnlockFirstKeeps(s, t);
    case UnlockSecond(t) => UnlockSecondKeeps(s, t);
    case IsrSend(item, front) => IsrIs(s, step); IsrSendKeeps(s, item, front);
    case IsrReceive => IsrIs(s, step); IsrReceiveKeeps(s);
    case TimeOut(t) => TimeOutKeeps(s, t);
    case _ => MoveKeeps(s, step);
  }

  lemma PlaceIs(s: Net, t: nat, at: nat)
    requires Enabled(s, Place(t, at))
    ensures t < |s.pc| && s.pc[t].Placing? && at <= |(if s.pc[t].op.Sending? then s.q.waitSend else s.q.waitRecv)|
    ensures Do(s, Place(t, at)) == Placed(s, t, at)
  {
  }

  lemma IsrIs(s: Net, step: Step)
    requires Enabled(s, step)
    ensures step.IsrSend? ==> !Full(s.q)
    ensures step.IsrReceive? ==> s.q.items != []
  {
  }

  // ---------- Whole runs ----------

  /** All tasks outside, the queue empty and unlocked. */
  ghost function Start(tasks: nat, length: nat): Net {
    Net(Q([], length, [], [], -1, -1), seq(tasks, i => Outside), -1, {}, {}, multiset{}, multiset{})
  }

  /** The steps can happen one after the other from `s` on. */
  ghost predicate Run(s: Net, steps: seq<Step>)
    decreases |steps|
  {
    steps == [] || (Enabled(s, steps[0]) && Run(Do(s, steps[0]), steps[1..]))
  }

  ghost function End(s: Net, steps: seq<Step>): Net
    requires Run(s, steps)
    decreases |steps|
  {
    if steps == [] then s else End(Do(s, steps[0]), steps[1..])
  }

  lemma {:induction false} RunKeeps(s: Net, steps: seq<Step>)
    requires Inv(s) && Conserved(s) && Run(s, steps)
    ensures Inv(End(s, steps)) && Conserved(End(s, steps))
    decreases |steps|
  {
    if steps != [] {
      hide Inv, Conserved, Do, Enabled;
      StepKeeps(s, steps[0]);
      RunKeeps(Do(s, steps[0]), steps[1..]);
    }
  }

  /** No wake-up is lost, in any interleaving: whenever a task sleeps on a queue that has items,
      either the owner of the lock still has to announce them, or a woken receiver is on its way. */
  lemma NoLostWakeUp(tasks: nat, length: nat, steps: seq<Step>)
    requires Run(Start(tasks, length), steps)
    ensures var s := End(Start(tasks, length), steps);
            && (s.q.waitRecv != [] ==> |s.q.items| <= |s.wokenRecv| + Positive(s.q.txLock))
            && (s.q.waitSend != [] ==> length - |s.q.items| <= |s.wokenSend| + Positive(s.q.rxLock))
            && s.sent == s.received + multiset(s.q.items) && |s.q.items| <= length == s.q.length
  {
    StartIs(tasks, length);
    RunKeeps(Start(tasks, length), steps);
    RunLength(Start(tasks, length), steps);
    hide Run, End;
  }

  // ---------- First in, first out ----------

  /** Nobody is about to send to the front. */
  ghost predicate NoneToFront(s: Net) {
    forall t :: 0 <= t < |s.pc| && !s.pc[t].Outside? && s.pc[t].op.Sending? ==> !s.pc[t].op.front
  }

  ghost predicate ToBack(step: Step) {
    (step.Call? && step.op.Sending? ==> !step.op.front) && (step.IsrSend? ==> !step.front)
  }

  /** The item that the step puts into the queue, if it does. */
  ghost function Coming(s: Net, step: Step): seq<seq<byte>>
    requires Enabled(s, step)
  {
    match step
    case Try(t, wait) => if s.pc[t].op.Sending? && !Full(s.q) then [s.pc[t].op.item] else []
    case IsrSend(item, front) => [item]
    case _ => []
  }

  /** The item that the step hands to its receiver, if it does. */
  ghost function Going(s: Net, step: Step): seq<seq<byte>>
    requires Enabled(s, step)
  {
    match step
    case Try(t, wait) => if s.pc[t].op.Receiving? && s.q.items != [] then [s.q.items[0]] else []
    case IsrReceive => [s.q.items[0]]
    case _ => []
  }

  /** All that a run sends, in order. */
  ghost function SentBy(s: Net, steps: seq<Step>): seq<seq<byte>>
    requires Run(s, steps)
    decreases |steps|
  {
    if steps == [] then [] else Coming(s, steps[0]) + SentBy(Do(s, steps[0]), steps[1..])
  }

  ghost function ReceivedBy(s: Net, steps: seq<Step>): seq<seq<byte>>
    requires Run(s, steps)
    decreases |steps|
  {
    if steps == [] then [] else Going(s, steps[0]) + ReceivedBy(Do(s, steps[0]), steps[1..])
  }

  lemma StepInOrder(s: Net, step: Step)
    requires Enabled(s, step) && ToBack(step) && NoneToFront(s)
    ensures s.q.items + Coming(s, step) == Going(s, step) + Do(s, step).q.items
  {
    hide OnList, Set;
    if s.q.items != [] { assert s.q.items == [s.q.items[0]] + s.q.items[1..]; }
  }

  lemma StaysToBack(s: Net, step: Step)
    requires Enabled(s, step) && ToBack(step) && NoneToFront(s)
    ensures NoneToFront(Do(s, step))
  {
    hide OnList, Set, Send, Receive, Peek, SendFromIsr, ReceiveFromIsr, Lock, UnlockTx, UnlockRx, Without;
  }

  /** In every run in which all sends are to the back, what is received is what was sent, in the order in which it
      was sent; the rest is in the queue. */
  lemma {:induction false} FirstInFirstOut(s: Net, steps: seq<Step>)
    requires NoneToFront(s) && Run(s, steps) && forall i :: 0 <= i < |steps| ==> ToBack(steps[i])
    ensures s.q.items + SentBy(s, steps) == ReceivedBy(s, steps) + End(s, steps).q.items
    decreases |steps|
  {
    if steps == [] {
      assert s.q.items + [] == [] + s.q.items;
    } else {
      RunsOn(s, steps);
      var s', rest := Do(s, steps[0]), steps[1..];
      StepInOrder(s, steps[0]);
      StaysToBack(s, steps[0]);
      hide *;
      assert forall i :: 0 <= i < |rest| ==> rest[i] == steps[i + 1];
      FirstInFirstOut(s', rest);
      Appends(s.q.items, Coming(s, steps[0]), SentBy(s', rest), Going(s, steps[0]), s'.q.items, ReceivedBy(s', rest),
              End(s', rest).q.items);
    }
  }

  lemma RunsOn(s: Net, steps: seq<Step>)
    requires Run(s, steps) && steps != []
    ensures Enabled(s, steps[0]) && Run(Do(s, steps[0]), steps[1..])
    ensures SentBy(s, steps) == Coming(s, steps[0]) + SentBy(Do(s, steps[0]), steps[1..])
    ensures ReceivedBy(s, steps) == Going(s, steps[0]) + ReceivedBy(Do(s, steps[0]), steps[1..])
    ensures End(s, steps) == End(Do(s, steps[0]), steps[1..])
  {
    hide Enabled, Do, Coming, Going;
  }

  lemma Appends<T>(items: seq<T>, come: seq<T>, came: seq<T>, go: seq<T>, items': seq<T>, gone: seq<T>, left: seq<T>)
    requires items + come == go + items' && items' + came == gone + left
    ensures items + (come + came) == (go + gone) + left
  {
    assert items + (come + came) == (items + come) + came;
    assert (go + items') + came == go + (items' + came);
    assert go + (gone + left) == (go + gone) + left;
  }

  lemma StartIs(tasks: nat, length: nat)
    ensures Inv(Start(tasks, length)) && Conserved(Start(tasks, length))
  {
  }

  lemma LengthStays(s: Net, step: Step)
    requires Enabled(s, step)
    ensures Do(s, step).q.length == s.q.length
  {
  }

  lemma {:induction false} RunLength(s: Net, steps: seq<Step>)
    requires Run(s, steps)
    ensures End(s, steps).q.length == s.q.length
    decreases |steps|
  {
    hide Enabled, Do;
    if steps != [] {
      LengthStays(s, steps[0]);
      RunLength(Do(s, steps[0]), steps[1..]);
    }
  }

  /** Once the queue is unlocked, a receiver that sleeps although there are items is not alone: a
      woken receiver can try again now. If nobody is woken, the queue is empty. */
  lemma SomebodyIsComing(s: Net)
    requires Inv(s) && s.owner == -1 && s.q.waitRecv != [] && s.q.items != []
    ensures exists t, wait :: t in s.wokenRecv && Enabled(s, Try(t, wait))
  {
    assert SectionOK(s) && s.q.txLock == -1;
    assert |s.wokenRecv| > 0;
    var t :| t in s.wokenRecv;
    assert Waits(s.pc[t], false) && !InSection(s.pc[t]);
    assert t !in s.q.waitRecv;
    assert t !in s.q.waitSend;
    assert Enabled(s, Try(t, true));
  }

  /** The same for senders on a queue with room. */
  lemma SomebodyIsSending(s: Net)
    requires Inv(s) && s.owner == -1 && s.q.waitSend != [] && !Full(s.q)
    ensures exists t, wait :: t in s.wokenSend && Enabled(s, Try(t, wait))
  {
    assert SectionOK(s) && s.q.rxLock == -1;
    assert |s.wokenSend| > 0;
    var t :| t in s.wokenSend;
    assert Waits(s.pc[t], true) && !InSection(s.pc[t]);
    assert t !in s.q.waitSend;
    assert t !in s.q.waitRecv;
    assert Enabled(s, Try(t, true));
  }
}
