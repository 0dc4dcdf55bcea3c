// Wrapped time refines unbounded time.  `now` counts the ticks processed since the scheduler
// started; `due` gives, for a task that waits with a limit, the unbounded time its wait ends.
module SchedulerTime {

  import opened ListModel
  import opened Shelves
  import opened Ticks
  import opened SortedLists
  import opened Scheduler
  import opened SchedulerKept

  // What the item value in the current delayed list says about the due time.  A wait of no ticks
  // ends with the next tick.
  predicate DueThisEpoch(now: nat, value: Tick, due: nat) {
    now < due &&
    (due == Epoch(now) * WRAP + value || (value == TickOf(now) && value != MAX_DELAY && due == now + 1))
  }

  // The same for the overflow list.
  predicate DueNextEpoch(now: nat, value: Tick, due: nat) {
    now < due < now + WRAP && due == (Epoch(now) + 1) * WRAP + value
  }

  // Right after the tick count has advanced, tasks may be due.
  predicate DueByNow(now: nat, value: Tick, due: nat) {
    (due == now && value <= TickOf(now)) || (now < due && due == Epoch(now) * WRAP + value)
  }

  ghost predicate Ordered(k: Kernel)
    requires k.Partitioned()
  {
    SortedBy(k.wake, k.st.Items(DELAYED_1)) && SortedBy(k.wake, k.st.Items(DELAYED_2))
  }

  ghost predicate Overflowing(k: Kernel, now: nat, due: map<Task, nat>)
    requires k.Partitioned()
  {
    forall t <- k.st.home :: k.st.home[t] == k.Overflow() ==> t in due && DueNextEpoch(now, k.wake[t], due[t])
  }

  // Between steps.
  ghost predicate TimeOk(k: Kernel, now: nat, due: map<Task, nat>)
    requires k.Partitioned()
  {
    && k.tick == TickOf(now) && k.overflows == Overflows(now) && Ordered(k) && Overflowing(k, now, due)
    && forall t <- k.st.home :: k.st.home[t] == k.delayed ==>
         t in due && DueThisEpoch(now, k.wake[t], due[t]) && k.nextUnblock <= k.wake[t]
  }

  // While the tasks due are being readied.
  ghost predicate TimeDue(k: Kernel, now: nat, due: map<Task, nat>)
    requires k.Partitioned()
  {
    && k.tick == TickOf(now) && k.overflows == Overflows(now) && Ordered(k) && Overflowing(k, now, due)
    && forall t <- k.st.home :: k.st.home[t] == k.delayed ==> t in due && DueByNow(now, k.wake[t], due[t])
  }

  // Current-list items lie ahead of the tick count (a wait of no ticks at it), overflow-list
  // items behind it, and the next unblock time is no later than any current-list item.
  lemma ListsAroundTick(k: Kernel, now: nat, due: map<Task, nat>, t: Task)
    requires k.Partitioned() && TimeOk(k, now, due) && t in k.st.home
    ensures k.st.home[t] == k.delayed ==>
              k.nextUnblock <= k.wake[t] && (k.wake[t] > k.tick || (k.wake[t] == k.tick && due[t] == now + 1))
    ensures k.st.home[t] == k.Overflow() ==> k.wake[t] < k.tick
  {
  }

  // The assertion of taskSWITCH_DELAYED_LISTS: nothing waits in the list that is put aside.
  lemma SwitchAssertion(k: Kernel, now: nat, due: map<Task, nat>)
    requires k.Partitioned() && TimeOk(k, now, due) && k.tick == MAX_DELAY
    ensures k.st.Items(k.delayed) == []
  {
    var d := k.st.Items(k.delayed);
    if d != [] {
      assert d[0] in k.st.lists[k.delayed].items;
      ListsAroundTick(k, now, due, d[0]);
      assert false;
    }
  }

  // Nothing joins a delayed list, and those left keep their order.
  ghost predicate Fewer(k: Kernel, r: Kernel)
    requires k.Partitioned() && r.Partitioned()
  {
    && r.tick == k.tick && r.overflows == k.overflows && r.delayed == k.delayed && r.nextUnblock == k.nextUnblock
    && (forall t <- r.st.home :: r.st.home[t] == DELAYED_1 || r.st.home[t] == DELAYED_2 ==>
          t in k.st.home && r.st.home[t] == k.st.home[t] && r.wake[t] == k.wake[t])
    && Ordered(r)
  }

  lemma FewerOk(k: Kernel, r: Kernel, now: nat, due: map<Task, nat>)
    requires k.Partitioned() && r.Partitioned() && Fewer(k, r)
    ensures TimeOk(k, now, due) ==> TimeOk(r, now, due)
    ensures TimeDue(k, now, due) ==> TimeDue(r, now, due)
  {
  }

  lemma UnblockFewer(k: Kernel, t: Task)
    requires k.Partitioned() && t in k.st.home && Ordered(k)
    ensures Fewer(k, Unblock(k, t))
  {
    hide SortedBy;
    hide RemoveOne;
    hide Unblock;
    SortedRemove(k.wake, k.st.Items(DELAYED_1), t);
    SortedRemove(k.wake, k.st.Items(DELAYED_2), t);
  }

  lemma ResetOk(k: Kernel, now: nat, due: map<Task, nat>)
    requires k.Partitioned() && TimeOk(k, now, due)
    ensures TimeOk(ResetUnblock(k), now, due)
  {
    HeadFirst(k);
  }

  // The head of the current list has the least value.
  lemma HeadFirst(k: Kernel)
    requires k.Partitioned() && Ordered(k)
    ensures forall t <- k.st.home :: k.st.home[t] == k.delayed ==> ResetUnblock(k).nextUnblock <= k.wake[t]
  {
    forall t | t in k.st.home && k.st.home[t] == k.delayed
      ensures t in k.wake && ResetUnblock(k).nextUnblock <= k.wake[t]
    {
      HeadBefore(k, t);
    }
  }

  // prvResetNextTaskUnblockTime finds the earliest time in the current list: none there is
  // earlier, and it is that of a task there, or the largest tick if the list is empty.
  lemma NextUnblockIsLeast(k: Kernel)
    requires k.Partitioned() && Ordered(k)
    ensures var next := ResetUnblock(k).nextUnblock;
            && (forall t <- k.st.home :: k.st.home[t] == k.delayed ==> t in k.wake && next <= k.wake[t])
            && (next == MAX_DELAY || exists t <- k.st.home :: k.st.home[t] == k.delayed && t in k.wake && k.wake[t] == next)
  {
    HeadFirst(k);
    if k.st.Items(k.delayed) != [] {
      DelayedHead(k);
    }
    hide Ordered;
  }

  lemma HeadBefore(k: Kernel, t: Task)
    requires k.Partitioned() && Ordered(k) && t in k.st.home && k.st.home[t] == k.delayed
    ensures k.st.Items(k.delayed) != [] && k.st.Items(k.delayed)[0] in k.wake
    ensures ResetUnblock(k).nextUnblock == k.wake[k.st.Items(k.delayed)[0]] <= k.wake[t]
  {
    var d := k.st.Items(k.delayed);
    assert t in k.st.lists[k.delayed].items;
    var i :| 0 <= i < |d| && d[i] == t;
    assert d[0] in k.st.lists[k.delayed].items;
    assert k.wake[d[0]] <= k.wake[d[i]];
  }

  // ---- one tick

  lemma DueAdvances(now: nat, value: Tick, due: nat)
    requires TickOf(now) != MAX_DELAY
    ensures Epoch(now + 1) == Epoch(now) && TickOf(now + 1) == TickOf(now) + 1
    ensures DueThisEpoch(now, value, due) ==> DueByNow(now + 1, value, due)
    ensures DueNextEpoch(now, value, due) ==> DueNextEpoch(now + 1, value, due)
  {
  }

  lemma DueWraps(now: nat, value: Tick, due: nat)
    requires TickOf(now) == MAX_DELAY
    ensures Epoch(now + 1) == Epoch(now) + 1 && TickOf(now + 1) == 0
    ensures DueNextEpoch(now, value, due) ==> DueByNow(now + 1, value, due)
  {
  }

  lemma AdvanceWithin(k: Kernel, now: nat, due: map<Task, nat>)
    requires k.Partitioned() && TimeOk(k, now, due) && k.tick != MAX_DELAY
    ensures TimeDue(Advance(k), now + 1, due)
    ensures Advance(k).nextUnblock == k.nextUnblock
  {
    forall t <- k.st.home | t in due && t in k.wake
      ensures k.st.home[t] == k.delayed ==> DueByNow(now + 1, k.wake[t], due[t])
      ensures k.st.home[t] == k.Overflow() ==> DueNextEpoch(now + 1, k.wake[t], due[t])
    {
      DueAdvances(now, k.wake[t], due[t]);
    }
    DueAdvances(now, 0, 0);
  }

  lemma AdvanceAcross(k: Kernel, now: nat, due: map<Task, nat>)
    requires k.Partitioned() && TimeOk(k, now, due) && k.tick == MAX_DELAY
    ensures TimeDue(Advance(k), now + 1, due)
    ensures forall t <- k.st.home :: k.st.home[t] == Advance(k).delayed ==> Advance(k).nextUnblock <= k.wake[t]
  {
    SwitchAssertion(k, now, due);
    EmptyMeansNone(k);
    HeadFirst(k.(tick := 0, delayed := k.Overflow(), overflows := Plus(k.overflows, 1)));
    forall t <- k.st.home | t in due && t in k.wake
      ensures k.st.home[t] == k.Overflow() ==> DueByNow(now + 1, k.wake[t], due[t])
    {
      DueWraps(now, k.wake[t], due[t]);
    }
    DueWraps(now, 0, 0);
    PlusTick(Epoch(now), 1);
  }

  lemma AdvanceTime(k: Kernel, now: nat, due: map<Task, nat>) returns (a: Kernel)
    requires k.Partitioned() && TimeOk(k, now, due)
    ensures a == Advance(k) && a.Partitioned() && TimeDue(a, now + 1, due)
    ensures a.st == k.st && a.prio == k.prio
    ensures a.tick < a.nextUnblock ==> TimeOk(a, now + 1, due)
  {
    a := Advance(k);
    if k.tick == MAX_DELAY {
      AdvanceAcross(k, now, due);
    } else {
      AdvanceWithin(k, now, due);
    }
  }

  lemma EmptyMeansNone(k: Kernel)
    requires k.Partitioned() && k.st.Items(k.delayed) == []
    ensures forall t <- k.st.home :: k.st.home[t] != k.delayed
  {
    forall t <- k.st.home ensures k.st.home[t] != k.delayed {
      assert t in k.st.lists[k.delayed].items <==> k.st.home[t] == k.delayed;
    }
  }

  // The loop readies exactly the tasks that are due.
  ghost predicate ReadiesDue(k: Kernel, r: Kernel, now: nat, due: map<Task, nat>)
    requires k.Partitioned()
    requires forall t <- k.st.home :: k.st.home[t] == k.delayed ==> t in due
  {
    && r.st.home.Keys == k.st.home.Keys
    && forall t <- k.st.home ::
         if k.st.home[t] == k.delayed && due[t] <= now then t in k.prio && r.st.home[t] == k.prio[t]
         else r.st.home[t] == k.st.home[t]
  }

  lemma ProcessOneTime(k: Kernel, now: nat, due: map<Task, nat>, s: bool) returns (n: Kernel, a: bool)
    requires k.Partitioned() && TimeDue(k, now, due) && k.st.Items(k.delayed) != []
    requires k.st.Items(k.delayed)[0] in k.wake && k.tick >= k.wake[k.st.Items(k.delayed)[0]]
    ensures n.Partitioned() && TimeDue(n, now, due) && n.delayed == k.delayed
    ensures |n.st.Items(n.delayed)| < |k.st.Items(k.delayed)|
    ensures ProcessDelayed(k, s) == ProcessDelayed(n, a)
    ensures forall r: Kernel :: ReadiesDue(n, r, now, due) ==> ReadiesDue(k, r, now, due)
  {
    n, a := ProcessOne(k, s);
    var t := k.st.Items(k.delayed)[0];
    assert t in k.st.lists[k.delayed].items;
    UnblockFewer(k, t);
    FewerOk(k, n, now, due);
    forall r: Kernel | ReadiesDue(n, r, now, due) ensures ReadiesDue(k, r, now, due) {
      ReadiesOneMore(k, n, r, t, now, due);
    }
  }

  lemma ReadiesOneMore(k: Kernel, n: Kernel, r: Kernel, t: Task, now: nat, due: map<Task, nat>)
    requires k.Partitioned() && n.Partitioned() && n.prio == k.prio && n.delayed == k.delayed
    requires forall u <- k.st.home :: k.st.home[u] == k.delayed ==> u in due
    requires t in k.st.home && k.st.home[t] == k.delayed && due[t] == now
    requires n.st.home == k.st.home[t := k.prio[t]] && ReadiesDue(n, r, now, due)
    ensures ReadiesDue(k, r, now, due)
  {
    assert n.st.home[t] == k.prio[t] < MAX_PRIORITIES;
  }

  // The loop stops where nothing is due.
  lemma NoneDue(k: Kernel, now: nat, due: map<Task, nat>, s: bool)
    requires k.Partitioned() && TimeDue(k, now, due)
    requires var d := k.st.Items(k.delayed); d == [] || (d[0] in k.wake && k.tick < k.wake[d[0]])
    ensures var r := ProcessDelayed(k, s).kernel; TimeOk(r, now, due) && ReadiesDue(k, r, now, due)
  {
    if k.st.Items(k.delayed) == [] {
      EmptyMeansNone(k);
    } else {
      HeadFirst(k);
    }
  }

  lemma {:induction false} ProcessTime(k: Kernel, now: nat, due: map<Task, nat>, s: bool)
    requires k.Partitioned() && TimeDue(k, now, due)
    ensures var r := ProcessDelayed(k, s).kernel; TimeOk(r, now, due) && ReadiesDue(k, r, now, due)
    decreases |k.st.Items(k.delayed)|
  {
    var d := k.st.Items(k.delayed);
    if d != [] {
      assert d[0] in k.st.lists[k.delayed].items;
    }
    if d == [] || k.tick < k.wake[d[0]] {
      NoneDue(k, now, due, s);
    } else {
      var n, a := ProcessOneTime(k, now, due, s);
      ProcessTime(n, now, due, a);
    }
  }

  // One unsuspended tick readies exactly the waiting tasks that are due with it.
  ghost predicate TickExact(k: Kernel, r: Kernel, until: nat, due: map<Task, nat>)
    requires k.Partitioned()
  {
    && r.st.home.Keys == k.st.home.Keys
    && forall t <- k.st.home ::
         if Waiting(k, t) then t in due && r.st.home[t] == if due[t] <= until then k.prio[t] else k.st.home[t]
         else r.st.home[t] == k.st.home[t]
  }

  // The task waits with a limit.
  predicate Waiting(k: Kernel, t: Task)
    requires t in k.st.home
  {
    k.st.home[t] == DELAYED_1 || k.st.home[t] == DELAYED_2
  }

  lemma ExactFromDue(k: Kernel, r: Kernel, now: nat, due: map<Task, nat>)
    requires k.Partitioned() && TimeDue(k, now, due) && ReadiesDue(k, r, now, due)
    ensures TickExact(k, r, now, due)
  {
    forall t <- k.st.home
      ensures if Waiting(k, t) then t in due && t in k.prio &&
                                    r.st.home[t] == if due[t] <= now then k.prio[t] else k.st.home[t]
              else r.st.home[t] == k.st.home[t]
    {
      assert t in k.prio;
      assert Waiting(k, t) ==> k.st.home[t] == k.delayed || k.st.home[t] == k.Overflow();
    }
  }

  lemma DueDelayed(k: Kernel, now: nat, due: map<Task, nat>)
    requires k.Partitioned() && TimeDue(k, now, due)
    ensures forall t <- k.st.home :: k.st.home[t] == k.delayed ==> t in due
  {
  }

  lemma ExactBefore(k: Kernel, a: Kernel, r: Kernel, until: nat, due: map<Task, nat>)
    requires k.Partitioned() && a.Partitioned() && a.st == k.st && a.prio == k.prio && TickExact(a, r, until, due)
    ensures TickExact(k, r, until, due)
  {
    forall t <- k.st.home ensures t in k.prio && Waiting(a, t) == Waiting(k, t) {
    }
    hide Homes;
    hide Shelf.Valid;
  }

  lemma TickTime(k: Kernel, now: nat, due: map<Task, nat>) returns (r: Kernel)
    requires k.Partitioned() && TimeOk(k, now, due) && k.nesting == 0
    ensures r == IncrementTick(k).kernel && r.Partitioned()
    ensures TimeOk(r, now + 1, due) && TickExact(k, r, now + 1, due)
  {
    hide Advance;
    hide ProcessDelayed;
    hide Kernel.Partitioned;
    hide TimeOk;
    hide TimeDue;
    hide ReadiesDue;
    var a := AdvanceTime(k, now, due);
    r := a;
    if a.tick >= a.nextUnblock {
      ProcessTime(a, now + 1, due, false);
      r := ProcessDelayed(a, false).kernel;
      DueDelayed(a, now + 1, due);
      ExactFromDue(a, r, now + 1, due);
    } else {
      NothingDue(a, now + 1, due);
    }
    ExactBefore(k, a, r, now + 1, due);
  }

  // ---- the ticks a suspended scheduler has to catch up on

  lemma ExactTrans(k: Kernel, a: Kernel, r: Kernel, n: nat, m: nat, due: map<Task, nat>)
    requires k.Partitioned() && a.Partitioned() && a.prio == k.prio && n <= m
    requires TickExact(k, a, n, due) && TickExact(a, r, m, due)
    ensures TickExact(k, r, m, due)
  {
    forall t <- k.st.home
      ensures t in a.st.home && t in k.prio
      ensures if Waiting(k, t) then t in due && r.st.home[t] == if due[t] <= m then k.prio[t] else k.st.home[t]
              else r.st.home[t] == k.st.home[t]
    {
      assert t in k.prio && t in a.st.home;
    }
  }

  ghost predicate CaughtUp(k: Kernel, r: Kernel, until: nat, due: map<Task, nat>)
    requires k.Partitioned()
  {
    && r.Partitioned() && r.nesting == 0 && r.prio == k.prio
    && TimeOk(r, until, due) && TickExact(k, r, until, due)
  }

  lemma CaughtUpOneMore(k: Kernel, p: Kernel, now: nat, due: map<Task, nat>) returns (r: Kernel)
    requires k.Partitioned() && CaughtUp(k, p, now, due)
    ensures r == PendedTick(p) && CaughtUp(k, r, now + 1, due)
  {
    TickReadies(p);
    var t := TickTime(p, now, due);
    r := PendedTick(p);
    assert r == t.(yieldPending := r.yieldPending);
    ExactTrans(k, p, t, now, now + 1, due);
  }

  // After n ticks exactly the tasks due by then are ready; whoever else was waiting still waits.
  ghost function CaughtUpBy(k: Kernel, now: nat, due: map<Task, nat>): (Kernel, nat) -> bool
    requires k.Partitioned()
  {
    (p: Kernel, i: nat) => CaughtUp(k, p, now + i, due)
  }

  lemma TickerKeeps(k: Kernel, now: nat, due: map<Task, nat>, p: Kernel, i: nat)
    requires k.Partitioned() && CaughtUpBy(k, now, due)(p, i)
    ensures CaughtUpBy(k, now, due)(Ticker()(p), i + 1)
  {
    var r := CaughtUpOneMore(k, p, now + i, due);
  }

  lemma CaughtUpAtFirst(k: Kernel, now: nat, due: map<Task, nat>)
    requires k.Partitioned() && TimeOk(k, now, due) && k.nesting == 0
    ensures CaughtUpBy(k, now, due)(k, 0)
  {
    NothingDue(k, now, due);
    assert CaughtUp(k, k, now + 0, due);
  }

  lemma CatchUpTime(k: Kernel, n: nat, now: nat, due: map<Task, nat>)
    requires k.Partitioned() && TimeOk(k, now, due) && k.nesting == 0
    ensures CaughtUpBy(k, now, due)(CatchUp(k, n), n)
  {
    var inv := CaughtUpBy(k, now, due);
    CaughtUpAtFirst(k, now, due);
    forall p: Kernel, i: nat | inv(p, i) ensures inv(Ticker()(p), i + 1) {
      TickerKeeps(k, now, due, p, i);
    }
    IterateKeeps(Ticker(), k, n, inv);
  }

  lemma NothingDue(k: Kernel, now: nat, due: map<Task, nat>)
    requires k.Partitioned() && TimeOk(k, now, due)
    ensures TickExact(k, k, now, due)
  {
    forall t <- k.st.home | Waiting(k, t) ensures t in due && due[t] > now && t in k.prio {
      assert k.st.home[t] == k.delayed || k.st.home[t] == k.Overflow();
    }
  }

  // The task waits in the pending ready list for the scheduler to be resumed.
  predicate PendingReady(k: Kernel, t: Task) { t in k.ev.home && k.ev.home[t] == PENDING }

  // r is k with pending tasks readied.
  ghost predicate Drained(k: Kernel, r: Kernel)
    requires k.Partitioned()
  {
    && r.Partitioned() && Fewer(k, r) && r.pended == k.pended && r.nesting == k.nesting
    && forall t <- k.st.home :: !PendingReady(k, t) ==>
         t in r.st.home && r.st.home[t] == k.st.home[t] && !PendingReady(r, t)
  }

  lemma DrainedUnblock(k: Kernel, t: Task, b: bool)
    requires k.Partitioned() && Ordered(k) && t in k.st.home && PendingReady(k, t)
    ensures Drained(k, Unblock(k, t).(yieldPending := b))
  {
    UnblockFewer(k, t);
  }

  lemma DrainOneFewer(k: Kernel) returns (n: Kernel)
    requires k.Partitioned() && Ordered(k) && k.ev.Items(PENDING) != []
    ensures Drained(k, n) && |n.ev.Items(PENDING)| < |k.ev.Items(PENDING)|
    ensures Drain(k) == Drain(n)
  {
    var t := k.ev.Items(PENDING)[0];
    assert t in k.ev.lists[PENDING].items;
    DrainedUnblock(k, t, k.yieldPending || k.Outranks(t));
    n := Unblock(k, t).(yieldPending := k.yieldPending || k.Outranks(t));
  }

  lemma DrainedTrans(k: Kernel, n: Kernel, r: Kernel)
    requires k.Partitioned() && n.Partitioned() && Drained(k, n) && Drained(n, r)
    ensures Drained(k, r)
  {
  }

  lemma {:induction false} DrainTime(k: Kernel)
    requires k.Partitioned() && Ordered(k)
    ensures Drained(k, Drain(k))
    decreases |k.ev.Items(PENDING)|
  {
    if k.ev.Items(PENDING) != [] {
      var n := DrainOneFewer(k);
      DrainTime(n);
      DrainedTrans(k, n, Drain(n));
    }
  }

  lemma CollectTime(k: Kernel, now: nat, due: map<Task, nat>) returns (c: Kernel)
    requires k.Partitioned() && TimeOk(k, now, due)
    ensures c == Collect(k) && c.Partitioned() && TimeOk(c, now, due)
    ensures c.pended == k.pended && c.nesting == k.nesting
    ensures forall t <- k.st.home :: !PendingReady(k, t) ==> t in c.st.home && c.st.home[t] == k.st.home[t]
  {
    DrainTime(k);
    FewerOk(k, Drain(k), now, due);
    c := Collect(k);
    if k.ev.Items(PENDING) != [] {
      ResetOk(Drain(k), now, due);
    }
  }

  // ---- blocking

  lemma DelayOrdered(k: Kernel, until: Tick)
    requires k.Partitioned() && k.Ready(k.current) && Ordered(k)
    ensures Ordered(DelayUntil(k, until))
  {
    var t, r := k.current, DelayUntil(k, until);
    var i := if until < k.tick then k.Overflow() else k.delayed;
    var other := DELAYED_1 + DELAYED_2 - i;
    assert t !in k.st.lists[DELAYED_1].items && t !in k.st.lists[DELAYED_2].items;
    SortedInsertTask(k.wake, k.st.Items(i), Values(k.wake, k.st.Items(i)), t, until);
    assert SortedBy(r.wake, r.st.Items(i));
    assert r.st.Items(other) == k.st.Items(other);
    SortedElsewhere(k.wake, k.st.Items(other), t, until);
  }

  lemma DueOfWait(now: nat, ticks: Tick)
    requires ticks == 0 ==> TickOf(now) != MAX_DELAY
    ensures var until, due := Plus(TickOf(now), ticks), now + Max(ticks, 1);
            if until < TickOf(now) then DueNextEpoch(now, until, due) else DueThisEpoch(now, until, due)
  {
  }

  lemma DelayTime(k: Kernel, now: nat, due: map<Task, nat>, ticks: Tick)
    requires k.Partitioned() && TimeOk(k, now, due) && CanBlock(k, ticks)
    ensures TimeOk(DelayUntil(k, Plus(k.tick, ticks)), now, due[k.current := now + Max(ticks, 1)])
  {
    DelayOrdered(k, Plus(k.tick, ticks));
    DueOfWait(now, ticks);
  }

  lemma DelayedNotSuspended(k: Kernel, until: Tick)
    requires k.Partitioned() && k.Ready(k.current)
    ensures DelayUntil(k, until).st.home[k.current] != SUSPENDED
  {
    hide MoveAt;
  }

  // A ready task is in no delayed list, whatever is noted as its due time.
  lemma OffTheDelayed(k: Kernel, now: nat, due: map<Task, nat>, d: nat)
    requires k.Partitioned() && TimeOk(k, now, due) && k.Ready(k.current)
    ensures var r := k.(st := MoveEnd(k.st, k.current, SUSPENDED));
            r.Partitioned() && TimeOk(r, now, due[k.current := d])
  {
    HomesMoved(k, k.current, SUSPENDED, 0);
    MovedFewer(k, k.current, SUSPENDED);
    var r := k.(st := MoveEnd(k.st, k.current, SUSPENDED));
    hide MoveEnd;
    assert TimeOk(k, now, due[k.current := d]);
    FewerOk(k, r, now, due[k.current := d]);
  }

  // A task that blocks at unbounded time `now` for `ticks` is due at now + ticks.
  lemma BlockTime(k: Kernel, now: nat, due: map<Task, nat>, ticks: Tick, indefinitely: bool)
    requires k.Partitioned() && TimeOk(k, now, due) && CanBlock(k, ticks)
    ensures TimeOk(Block(k, ticks, indefinitely), now, due[k.current := now + Max(ticks, 1)])
    ensures Block(k, ticks, indefinitely).st.home[k.current] != SUSPENDED <==>
              !(ticks == MAX_DELAY && indefinitely)
  {
    hide DelayUntil;
    hide TimeOk;
    hide Kernel.Partitioned;
    if ticks == MAX_DELAY && indefinitely {
      OffTheDelayed(k, now, due, now + Max(ticks, 1));
    } else {
      DelayTime(k, now, due, ticks);
      DelayedNotSuspended(k, Plus(k.tick, ticks));
    }
  }

  // Why a wait of no ticks must not begin at the last tick before the wrap: it would be filed in
  // the current list, and the next tick would find that list not empty when it swaps the two.
  lemma ZeroWaitAtLastTick(k: Kernel)
    requires k.Partitioned() && k.Ready(k.current) && k.tick == MAX_DELAY
    ensures var b := Block(k, 0, false); b.delayed == k.delayed && b.st.Items(b.delayed) != []
  {
    var b := Block(k, 0, false);
    assert b.st.home[k.current] == k.delayed;
    hide DelayUntil;
    assert k.current in b.st.lists[k.delayed].items;
  }

  // ---- the other regions

  // Resuming drains the pending tasks and then takes the pended ticks: every other waiting task
  // is readied exactly if it is due by the unbounded time reached.
  lemma ResumeTime(k: Kernel, now: nat, due: map<Task, nat>)
    requires k.Partitioned() && TimeOk(k, now, due) && k.nesting == 1 && k.numTasks > 0
    ensures TimeOk(Scheduler.ResumeAll(k), now + k.pended, due)
    ensures ResumeExact(k, Scheduler.ResumeAll(k), now + k.pended, due)
  {
    var g := ResumedTime(k, now, due);
  }

  ghost predicate ResumeExact(k: Kernel, r: Kernel, until: nat, due: map<Task, nat>) {
    && r.st.home.Keys >= k.st.home.Keys
    && forall t <- k.st.home :: !PendingReady(k, t) ==>
         if Waiting(k, t) && t in due && due[t] <= until then r.st.home[t] < MAX_PRIORITIES
         else r.st.home[t] == k.st.home[t]
  }

  // c is k with the pending tasks readied and nothing else moved.
  ghost predicate Collected(k: Kernel, c: Kernel) {
    && c.Partitioned() && c.nesting == 0 && c.pended == k.pended
    && c.st.home.Keys >= k.st.home.Keys
    && forall t <- k.st.home :: !PendingReady(k, t) ==> c.st.home[t] == k.st.home[t]
  }

  lemma CollectedTime(k: Kernel, now: nat, due: map<Task, nat>) returns (c: Kernel)
    requires k.Partitioned() && TimeOk(k, now, due) && k.nesting == 1
    ensures c == Collect(k.(nesting := 0)) && Collected(k, c) && TimeOk(c, now, due)
  {
    var d := k.(nesting := 0);
    c := CollectTime(d, now, due);
    CollectReadies0(d);
  }

  lemma CollectReadies0(k: Kernel)
    requires k.Partitioned()
    ensures Collect(k).st.home.Keys == k.st.home.Keys
  {
    var c := CollectReadies(k);
  }

  lemma ResumedTime(k: Kernel, now: nat, due: map<Task, nat>) returns (g: Kernel)
    requires k.Partitioned() && TimeOk(k, now, due) && k.nesting == 1
    ensures var c := Collect(k.(nesting := 0)); g == CatchUp(c, c.pended)
    ensures g.Partitioned() && TimeOk(g, now + k.pended, due) && ResumeExact(k, g, now + k.pended, due)
  {
    var c := CollectedTime(k, now, due);
    g := CatchUpCollected(k, c, now, due);
  }

  lemma CatchUpCollected(k: Kernel, c: Kernel, now: nat, due: map<Task, nat>) returns (g: Kernel)
    requires Collected(k, c) && TimeOk(c, now, due)
    ensures g == CatchUp(c, c.pended)
    ensures g.Partitioned() && TimeOk(g, now + k.pended, due) && ResumeExact(k, g, now + k.pended, due)
  {
    CatchUpTime(c, c.pended, now, due);
    g := CatchUp(c, c.pended);
    ResumeFromParts(k, c, g, now, due);
  }

  lemma ResumeFromParts(k: Kernel, c: Kernel, g: Kernel, now: nat, due: map<Task, nat>)
    requires Collected(k, c) && CaughtUpBy(c, now, due)(g, c.pended)
    ensures g.Partitioned() && TimeOk(g, now + k.pended, due) && ResumeExact(k, g, now + k.pended, due)
  {
    assert CaughtUp(c, g, now + k.pended, due);
    forall t <- k.st.home | !PendingReady(k, t)
      ensures t in g.st.home
      ensures if Waiting(k, t) && t in due && due[t] <= now + k.pended then g.st.home[t] < MAX_PRIORITIES
              else g.st.home[t] == k.st.home[t]
    {
      assert t in c.st.home && t in c.prio;
    }
  }

  lemma NestedTime(k: Kernel, now: nat, due: map<Task, nat>)
    requires k.Partitioned() && TimeOk(k, now, due) && k.nesting > 1
    ensures TimeOk(Scheduler.ResumeAll(k), now, due)
  {
  }

  lemma WakeTime(k: Kernel, q: nat, now: nat, due: map<Task, nat>)
    requires k.Partitioned() && TimeOk(k, now, due) && PENDING < q < |k.ev.lists| && k.ev.Items(q) != []
    ensures TimeOk(Wake(k, q), now, due)
  {
    var t := k.ev.Items(q)[0];
    assert t in k.ev.lists[q].items;
    assert t in k.st.home;
    hide Homes;
    hide TimeOk;
    hide Unblock;
    if k.nesting == 0 {
      UnblockTime(k, t, now, due);
      SameTime(Unblock(k, t), Wake(k, q), now, due);
    } else {
      SameTime(k, Wake(k, q), now, due);
    }
  }

  lemma UnblockTime(k: Kernel, t: Task, now: nat, due: map<Task, nat>)
    requires k.Partitioned() && TimeOk(k, now, due) && t in k.st.home
    ensures TimeOk(Unblock(k, t), now, due)
  {
    UnblockFewer(k, t);
    FewerOk(k, Unblock(k, t), now, due);
  }

  lemma MovedFewer(k: Kernel, t: Task, i: nat)
    requires k.Partitioned() && Ordered(k) && t in k.st.home && i < STATE_LISTS
    requires i != DELAYED_1 && i != DELAYED_2
    ensures var s := MoveEnd(k.st, t, i);
            && (forall u <- s.Items(DELAYED_1) :: u in k.wake) && SortedBy(k.wake, s.Items(DELAYED_1))
            && (forall u <- s.Items(DELAYED_2) :: u in k.wake) && SortedBy(k.wake, s.Items(DELAYED_2))
  {
    SortedRemove(k.wake, k.st.Items(DELAYED_1), t);
    SortedRemove(k.wake, k.st.Items(DELAYED_2), t);
  }

  lemma SuspendTime(k: Kernel, t: Task, now: nat, due: map<Task, nat>)
    requires k.Partitioned() && TimeOk(k, now, due) && t in k.prio
    ensures TimeOk(Suspend(k, t), now, due)
  {
    hide Kernel.Partitioned;
    hide TimeOk;
    hide ToSuspended;
    var o := OffEvents(k, t);
    SameTime(k, o, now, due);
    SuspendedTime(o, t, now, due);
  }

  // Only the lists, the times and the tick count matter.
  lemma SameTime(k: Kernel, r: Kernel, now: nat, due: map<Task, nat>)
    requires k.Partitioned() && r.Partitioned() && TimeOk(k, now, due)
    requires r.st == k.st && r.wake == k.wake && r.delayed == k.delayed && r.tick == k.tick && r.nextUnblock == k.nextUnblock
    requires r.overflows == k.overflows
    ensures TimeOk(r, now, due)
  {
  }

  lemma SuspendedTime(k: Kernel, t: Task, now: nat, due: map<Task, nat>)
    requires k.Partitioned() && TimeOk(k, now, due) && t in k.prio && t !in k.ev.home
    ensures TimeOk(ToSuspended(k, t), now, due)
  {
    MovedFewer(k, t, SUSPENDED);
    FewerOk(k, ToSuspended(k, t), now, due);
  }

  lemma ResumeTaskTime(k: Kernel, t: Task, now: nat, due: map<Task, nat>)
    requires k.Partitioned() && TimeOk(k, now, due)
    ensures TimeOk(Resume(k, t), now, due)
  {
    if t != k.current && t in k.st.home && k.st.home[t] == SUSPENDED && t !in k.ev.home {
      UnblockTime(k, t, now, due);
      assert Resume(k, t) == Unblock(k, t).(switchAsked := k.switchAsked || k.Outranks(t));
    }
  }

  lemma DeleteSelfTime(k: Kernel, now: nat, due: map<Task, nat>)
    requires k.Partitioned() && TimeOk(k, now, due)
    ensures TimeOk(Delete(k, k.current), now, due)
  {
    MovedFewer(k, k.current, TERMINATED);
    FewerOk(k, Delete(k, k.current), now, due);
  }

  lemma TakenFewer(k: Kernel, t: Task)
    requires k.Partitioned() && Ordered(k) && t in k.st.home
    ensures var s := k.st.Take(t);
            && (forall u <- s.Items(DELAYED_1) :: u in k.wake) && SortedBy(k.wake, s.Items(DELAYED_1))
            && (forall u <- s.Items(DELAYED_2) :: u in k.wake) && SortedBy(k.wake, s.Items(DELAYED_2))
  {
    TakeValid(k.st, t);
    SortedRemove(k.wake, k.st.Items(DELAYED_1), t);
    SortedRemove(k.wake, k.st.Items(DELAYED_2), t);
  }

  lemma DeleteOtherTime(k: Kernel, t: Task, now: nat, due: map<Task, nat>)
    requires k.Partitioned() && TimeOk(k, now, due) && t in k.prio && t != k.current
    ensures TimeOk(Delete(k, t), now, due)
  {
    hide Kernel.Partitioned;
    hide TimeOk;
    hide Forget;
    hide ResetUnblock;
    var o := OffEvents(k, t);
    SameTime(k, o, now, due);
    ForgetTime(o, t, now, due);
    ResetOk(Forget(o, t), now, due);
  }

  lemma ForgetTime(k: Kernel, t: Task, now: nat, due: map<Task, nat>)
    requires k.Partitioned() && TimeOk(k, now, due) && t in k.prio && t != k.current && t !in k.ev.home
    ensures TimeOk(Forget(k, t), now, due)
  {
    TakenFewer(k, t);
    FewerOk(k, Forget(k, t), now, due);
  }

  lemma CleanUpTime(k: Kernel, now: nat, due: map<Task, nat>)
    requires k.Partitioned() && TimeOk(k, now, due)
    requires k.st.Items(TERMINATED) != [] && k.current !in k.st.Items(TERMINATED)
    ensures TimeOk(CleanUp(k), now, due)
  {
    var t := k.st.Items(TERMINATED)[0];
    assert t in k.st.lists[TERMINATED].items;
    hide Homes;
    hide TimeOk;
    hide Forget;
    ForgetTime(k, t, now, due);
    SameTime(Forget(k, t), CleanUp(k), now, due);
  }

  lemma CreateTime(k: Kernel, t: Task, p: nat, now: nat, due: map<Task, nat>)
    requires k.Partitioned() && TimeOk(k, now, due) && t !in k.prio
    ensures TimeOk(Create(k, t, p), now, due)
  {
    assert t !in k.st.lists[DELAYED_1].items && t !in k.st.lists[DELAYED_2].items;
    SortedElsewhere(k.wake, k.st.Items(DELAYED_1), t, 0);
    SortedElsewhere(k.wake, k.st.Items(DELAYED_2), t, 0);
    FewerOk(k, Create(k, t, p), now, due);
  }

  lemma ReprioritiseTime(k: Kernel, t: Task, p: nat, now: nat, due: map<Task, nat>)
    requires k.Partitioned() && TimeOk(k, now, due) && t in k.prio && p < MAX_PRIORITIES
    ensures TimeOk(Reprioritise(k, t, p), now, due)
  {
    var r := Reprioritise(k, t, p);
    if k.st.home[t] == k.prio[t] {
      MovedFewer(k, t, p);
      assert r.st == MoveEnd(k.st, t, p);
    } else {
      assert r.st == k.st;
    }
    assert Ordered(r);
    FewerOk(k, r, now, due);
  }

  lemma PrioritySetTime(k: Kernel, t: Task, p: nat, now: nat, due: map<Task, nat>)
    requires k.Partitioned() && TimeOk(k, now, due) && t in k.prio
    ensures TimeOk(PrioritySet(k, t, p), now, due)
  {
    ReprioritiseTime(k, t, Clip(p), now, due);
  }

  lemma SwitchTime(k: Kernel, now: nat, due: map<Task, nat>)
    requires Ranked(k) && k.running && TimeOk(k, now, due)
    ensures (exists t :: t in k.st.home && k.st.home[t] <= k.topReady) && TimeOk(SwitchContext(k), now, due)
  {
    SwitchSelectsHighest(k);
    FewerOk(k, SwitchContext(k), now, due);
  }
}
