/** Time-outs of blocking calls, kept across wake-ups on a tick count that wraps. */
module KernelTimeout {

  /** The tick count and the overflow count at time `now`; both are 32 bits wide. */
  function TickOf(now: nat): (t: nat) ensures t < 0x1_0000_0000 { now % 0x1_0000_0000 }

  function CountOf(now: nat): (c: nat) ensures c < 0x1_0000_0000 { now / 0x1_0000_0000 % 0x1_0000_0000 }

  /** The tick count overflowed at most once between the two times. */
  ghost predicate OneOverflow(since: nat, now: nat) {
    since <= now && now / 0x1_0000_0000 <= since / 0x1_0000_0000 + 1
  }

  /** The test that `xTaskCheckForTimeOut` makes. */
  function Expired(saved: nat, entering: nat, count: nat, tick: nat, wait: nat): bool {
    if count != saved && tick >= entering then true
    else (tick - entering) % 0x1_0000_0000 >= wait
  }

  /** With at most one overflow the test is exact. */
  lemma ExpiredIsExact(since: nat, now: nat, wait: nat)
    requires OneOverflow(since, now) && wait < 0x1_0000_0000
    ensures Expired(CountOf(since), TickOf(since), CountOf(now), TickOf(now), wait) <==> now - since >= wait
    ensures !Expired(CountOf(since), TickOf(since), CountOf(now), TickOf(now), wait) ==>
              (TickOf(now) - TickOf(since)) % 0x1_0000_0000 == now - since
  {
    var a, b := since / 0x1_0000_0000, now / 0x1_0000_0000;
    assert since == 0x1_0000_0000 * a + TickOf(since) && now == 0x1_0000_0000 * b + TickOf(now);
    assert a == b || b == a + 1;
    if a != b { CountDiffers(a); }
  }

  lemma CountDiffers(a: nat)
    ensures a % 0x1_0000_0000 != (a + 1) % 0x1_0000_0000
  {
  }

  /** The test tells whether the wait is over. */
  ghost predicate Right(since: nat, now: nat, wait: nat) {
    Expired(CountOf(since), TickOf(since), CountOf(now), TickOf(now), wait) <==> now - since >= wait
  }

  /** For two given times it is right for every wait exactly if less than 2^32 ticks lie between them, or the
      overflow counts differ and the tick count has come past the saved one, or they are one tick short of
      some number of whole rounds apart. */
  lemma ExpiredWhen(since: nat, now: nat)
    requires since <= now
    ensures (forall wait: nat :: wait < 0x1_0000_0000 ==> Right(since, now, wait))
       <==> (now - since < 0x1_0000_0000 || (CountOf(now) != CountOf(since) && TickOf(now) >= TickOf(since))
             || (now - since) % 0x1_0000_0000 == 0xFFFF_FFFF)
  {
    var near := now - since < 0x1_0000_0000 || (CountOf(now) != CountOf(since) && TickOf(now) >= TickOf(since));
    forall wait: nat | wait < 0x1_0000_0000 && (near || (now - since) % 0x1_0000_0000 == 0xFFFF_FFFF)
      ensures Right(since, now, wait)
    {
      ExpiredFor(since, now, wait);
    }
    ExpiredFor(since, now, 0xFFFF_FFFF);
    hide TickOf, CountOf;
    assert (forall wait: nat :: wait < 0x1_0000_0000 ==> Right(since, now, wait)) ==> Right(since, now, 0xFFFF_FFFF);
  }

  /** For one wait, the third case is that the remainder is large enough. */
  lemma ExpiredFor(since: nat, now: nat, wait: nat)
    requires since <= now && wait < 0x1_0000_0000
    ensures Right(since, now, wait)
       <==> (now - since < 0x1_0000_0000 || (CountOf(now) != CountOf(since) && TickOf(now) >= TickOf(since))
             || (now - since) % 0x1_0000_0000 >= wait)
  {
    WrappedDifference(since, now);
    if now - since < 0x1_0000_0000 { ExpiredIsExact(since, now, wait); }
  }

  lemma WrappedDifference(since: nat, now: nat)
    requires since <= now
    ensures (TickOf(now) - TickOf(since)) % 0x1_0000_0000 == (now - since) % 0x1_0000_0000
  {
    var d := now / 0x1_0000_0000 - since / 0x1_0000_0000;
    assert now - since == 0x1_0000_0000 * d + (TickOf(now) - TickOf(since));
  }

  /** Two overflows, one tick short of a third epoch: a wait that ended long ago looks unfinished. */
  lemma TwoOverflowsMissed()
    ensures var since, now, wait := 5, 0x2_0000_0000, 0xFFFF_FFFF;
            now - since >= wait && !Expired(CountOf(since), TickOf(since), CountOf(now), TickOf(now), wait)
  {
    assert 0x2_0000_0000 / 0x1_0000_0000 == 2;
  }

  class TimeOut {
    var overflowCount: nat
    var timeOnEntering: nat
    ghost var since: nat // when the state was last set

    ghost predicate Valid()
      reads this
    {
      overflowCount == CountOf(since) && timeOnEntering == TickOf(since)
    }

    method SetState(count: nat, tick: nat, ghost now: nat)
      requires count == CountOf(now) && tick == TickOf(now)
      modifies this
      ensures Valid() && since == now
    {
      overflowCount, timeOnEntering, since := count, tick, now;
    }

    /** Has the wait ended? If not, `left` is what remains of it, counted from now. */
    method Check(count: nat, tick: nat, wait: nat, ghost now: nat) returns (expired: bool, left: nat)
      requires Valid() && OneOverflow(since, now) && wait < 0x1_0000_0000
      requires count == CountOf(now) && tick == TickOf(now)
      modifies this
      ensures Valid()
      ensures expired <==> now - old(since) >= wait
      ensures expired ==> left == wait && since == old(since)
      ensures !expired ==> left + (now - old(since)) == wait && left > 0 && since == now
    {
      ExpiredIsExact(since, now, wait);
      left := wait;
      if count != overflowCount && tick >= timeOnEntering {
        expired := true;
      } else if (tick - timeOnEntering) % 0x1_0000_0000 < wait {
        left := wait - (tick - timeOnEntering) % 0x1_0000_0000;
        SetState(count, tick, now);
        expired := false;
      } else {
        expired := true;
      }
    }
  }

  /** The times at which a blocked call wakes and checks; the tick count may overflow between two
      of them, but not twice. */
  ghost predicate Rounds(start: nat, times: seq<nat>) {
    forall i :: 0 <= i < |times| ==> OneOverflow(if i == 0 then start else times[i - 1], times[i])
  }

  /** The retry loop of a blocking call: over any number of rounds the ticks left and the ticks
      elapsed since the call add up to the wait asked for, and the call gives up at the first
      check at which the wait is over. */
  method Retry(start: nat, wait: nat, times: seq<nat>) returns (expired: bool, round: nat, left: nat)
    requires Rounds(start, times) && wait < 0x1_0000_0000
    ensures expired ==> round < |times| && times[round] - start >= wait
    ensures !expired ==> round == |times| && left + (if times == [] then 0 else times[|times| - 1] - start) == wait
    ensures forall i :: 0 <= i < round ==> 0 <= times[i] - start < wait
  {
    var timeOut := new TimeOut;
    timeOut.SetState(CountOf(start), TickOf(start), start);
    expired, round, left := false, 0, wait;
    while round < |times|
      invariant round <= |times| && timeOut.Valid() && timeOut.since == (if round == 0 then start else times[round - 1])
      invariant left + (timeOut.since - start) == wait && left < 0x1_0000_0000 && timeOut.since >= start
      invariant forall i :: 0 <= i < round ==> 0 <= times[i] - start < wait
    {
      expired, left := timeOut.Check(CountOf(times[round]), TickOf(times[round]), left, times[round]);
      if expired { return; }
      round := round + 1;
    }
  }
}
