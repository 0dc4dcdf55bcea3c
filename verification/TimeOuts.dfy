// The bookkeeping a blocking call uses to wait for a total time in several pieces
// (vTaskInternalSetTimeOutState, xTaskCheckForTimeOut), over unbounded time.
module TimeOuts {

  import opened Ticks
  import opened ListModel

  datatype TimeOut = TimeOut(overflowCount: Tick, timeOnEntering: Tick)

  function Entered(n: nat): TimeOut { TimeOut(Overflows(n), TickOf(n)) }

  datatype Verdict = Verdict(timedOut: bool, state: TimeOut, ticksToWait: Tick)

  // xTaskCheckForTimeOut at unbounded time `now`.
  function Check(state: TimeOut, ticksToWait: Tick, now: nat): Verdict {
    var tick := TickOf(now);
    var elapsed := Minus(tick, state.timeOnEntering);
    if ticksToWait == MAX_DELAY then Verdict(false, state, ticksToWait)
    else if Overflows(now) != state.overflowCount && tick >= state.timeOnEntering then Verdict(true, state, 0)
    else if elapsed < ticksToWait then Verdict(false, Entered(now), ticksToWait - elapsed)
    else Verdict(true, state, 0)
  }

  // The tick count wrapped at most once between the two times.
  predicate Close(entry: nat, now: nat) {
    entry <= now && Epoch(now) <= Epoch(entry) + 1
  }

  // One check tells exactly whether the wait is over, and otherwise keeps the deadline: entry
  // time plus remaining wait is what it was.
  lemma CheckExact(entry: nat, ticksToWait: Tick, now: nat)
    requires Close(entry, now) && ticksToWait != MAX_DELAY
    ensures var v := Check(Entered(entry), ticksToWait, now);
            && (v.timedOut <==> now - entry >= ticksToWait)
            && (!v.timedOut ==> v.state == Entered(now) && now + v.ticksToWait == entry + ticksToWait
                                && 0 < v.ticksToWait < MAX_DELAY)
            && (v.timedOut ==> v.ticksToWait == 0)
  {
    ElapsedModulo(entry, now);
    if Epoch(now) != Epoch(entry) {
      assert Overflows(now) != Overflows(entry);
    }
  }

  lemma ElapsedModulo(entry: nat, now: nat)
    requires Close(entry, now)
    ensures Epoch(now) == Epoch(entry) ==> Minus(TickOf(now), TickOf(entry)) == now - entry
    ensures Epoch(now) != Epoch(entry) && TickOf(now) < TickOf(entry) ==>
              Minus(TickOf(now), TickOf(entry)) == now - entry
    ensures Epoch(now) != Epoch(entry) && TickOf(now) >= TickOf(entry) ==> now - entry >= WRAP
  {
    assert now == Epoch(now) * WRAP + TickOf(now);
    assert entry == Epoch(entry) * WRAP + TickOf(entry);
  }

  // However far apart the two times are, a check answers rightly exactly when they are less than
  // a turn of the tick count apart, or the counts show a wrap and the tick count has come past
  // the entry again, or what is left of the time above full turns reaches the wait by itself.
  lemma RightExactly(entry: nat, ticksToWait: Tick, now: nat)
    requires entry <= now && ticksToWait != MAX_DELAY
    ensures (Check(Entered(entry), ticksToWait, now).timedOut <==> now - entry >= ticksToWait) <==>
              || now - entry < WRAP
              || (Overflows(now) != Overflows(entry) && TickOf(now) >= TickOf(entry))
              || (now - entry) % WRAP >= ticksToWait
  {
    MinusModulo(entry, now);
    if now - entry < WRAP {
      CheckExact(entry, ticksToWait, now);
    }
  }

  lemma MinusModulo(entry: nat, now: nat)
    requires entry <= now
    ensures Minus(TickOf(now), TickOf(entry)) == (now - entry) % WRAP
    ensures now - entry < WRAP ==> Close(entry, now)
  {
    assert now == Epoch(now) * WRAP + TickOf(now);
    assert entry == Epoch(entry) * WRAP + TickOf(entry);
    var d := Epoch(now) - Epoch(entry);
    assert now - entry == d * WRAP + (TickOf(now) - TickOf(entry));
  }

  // As long as the count of wraps has not itself come round, the second case needs no look at it.
  lemma RightWithin(entry: nat, ticksToWait: Tick, now: nat)
    requires entry <= now && Epoch(now) < Epoch(entry) + WRAP && ticksToWait != MAX_DELAY
    ensures (Check(Entered(entry), ticksToWait, now).timedOut <==> now - entry >= ticksToWait) <==>
              now - entry < WRAP || TickOf(now) >= TickOf(entry) || (now - entry) % WRAP >= ticksToWait
  {
    RightExactly(entry, ticksToWait, now);
    if now - entry >= WRAP {
      OverflowsDiffer(Epoch(entry), Epoch(now));
      assert Epoch(now) > Epoch(entry);
    }
  }

  lemma OverflowsDiffer(a: nat, b: nat)
    requires a < b < a + WRAP
    ensures a % WRAP != b % WRAP
  {
  }

  // Two wraps between checks are one too many: a wait of five ticks is not seen to be over.
  lemma TwoWrapsMissed()
    ensures var entry, now := WRAP - 1, 2 * WRAP;
            now - entry >= 5 && !Check(Entered(entry), 5, now).timedOut
  {
    RightExactly(WRAP - 1, 5, 2 * WRAP);
  }

  // The number of checks that say "not yet" before one says "timed out".
  function Waited(state: TimeOut, ticksToWait: Tick, times: seq<nat>): (n: nat)
    ensures n <= |times|
    decreases |times|
  {
    if times == [] then 0
    else
      var v := Check(state, ticksToWait, times[0]);
      if v.timedOut then 0 else 1 + Waited(v.state, v.ticksToWait, times[1..])
  }

  predicate AllClose(entry: nat, times: seq<nat>)
    decreases |times|
  {
    times == [] || (Close(entry, times[0]) && AllClose(times[0], times[1..]))
  }

  // However many pieces the wait falls into: the first check to report a timeout is the first
  // one made when the total time since the start has reached the wait asked for.
  lemma {:induction false} TimesOutWhenDue(entry: nat, ticksToWait: Tick, times: seq<nat>)
    requires AllClose(entry, times) && ticksToWait != MAX_DELAY
    ensures var n := Waited(Entered(entry), ticksToWait, times);
            && (forall k :: 0 <= k < n ==> times[k] - entry < ticksToWait)
            && (n < |times| ==> times[n] - entry >= ticksToWait)
    decreases |times|
  {
    if times != [] {
      CheckExact(entry, ticksToWait, times[0]);
      var v := Check(Entered(entry), ticksToWait, times[0]);
      if !v.timedOut {
        TimesOutWhenDue(times[0], v.ticksToWait, times[1..]);
        assert forall k :: 0 < k < |times| ==> times[k] == times[1..][k - 1];
      }
    }
  }

  // The largest wait never times out.
  lemma {:induction false} NeverTimesOut(state: TimeOut, times: seq<nat>)
    ensures Waited(state, MAX_DELAY, times) == |times|
    decreases |times|
  {
    if times != [] {
      NeverTimesOut(state, times[1..]);
    }
  }

  class TimeOutState {
    var overflowCount: Tick
    var timeOnEntering: Tick

    ghost function View(): TimeOut
      reads this
    {
      TimeOut(overflowCount, timeOnEntering)
    }

    // vTaskInternalSetTimeOutState
    method Set(tickCount: Tick, numOfOverflows: Tick)
      modifies this
      ensures View() == TimeOut(numOfOverflows, tickCount)
    {
      overflowCount := numOfOverflows;
      timeOnEntering := tickCount;
    }

    // xTaskCheckForTimeOut
    method CheckForTimeOut(tickCount: Tick, numOfOverflows: Tick, ticksToWait: Tick, ghost now: nat)
        returns (timedOut: bool, remaining: Tick)
      requires tickCount == TickOf(now) && numOfOverflows == Overflows(now)
      modifies this
      ensures Verdict(timedOut, View(), remaining) == Check(old(View()), ticksToWait, now)
    {
      var elapsed := Minus(tickCount, timeOnEntering);
      remaining := ticksToWait;
      if ticksToWait == MAX_DELAY {
        timedOut := false;
      } else if numOfOverflows != overflowCount && tickCount >= timeOnEntering {
        timedOut, remaining := true, 0;
      } else if elapsed < ticksToWait {
        remaining := ticksToWait - elapsed;
        Set(tickCount, numOfOverflows);
        timedOut := false;
      } else {
        timedOut, remaining := true, 0;
      }
    }
  }
}
