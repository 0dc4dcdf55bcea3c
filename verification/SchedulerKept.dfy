// What every region of the scheduler keeps: the idle task is always ready, the
// recorded top priority bounds the ready ones, no preemption is missed, and the counts are right.
module SchedulerKept {

  import opened ListModel
  import opened Shelves
  import opened Ticks
  import opened Scheduler

  // The running task can block: it is not the idle task, the scheduler is suspended, and a wait
  // of no ticks is not begun on the last tick before the count wraps.
  predicate CanBlock(k: Kernel, ticks: Tick) {
    k.nesting > 0 && k.Ready(k.current) && k.current != k.idle && (ticks == 0 ==> k.tick != MAX_DELAY)
  }

  // A task that may be suspended or deleted: not the idle task, and not one deleted before.
  predicate CanStop(k: Kernel, t: Task) {
    t in k.prio && t in k.st.home && k.st.home[t] != TERMINATED &&
    t != k.idle && (t == k.current ==> k.nesting == 0)
  }

  // ---- what is kept, part by part

  predicate TopOk(k: Kernel) {
    k.topReady < MAX_PRIORITIES && forall t <- k.st.home :: k.st.home[t] < MAX_PRIORITIES ==> k.st.home[t] <= k.topReady
  }

  predicate IdleReady(k: Kernel) {
    k.running ==> k.idle in k.st.home && k.st.home[k.idle] == 0
  }

  // A context switch has been requested, or no ready task outranks the running one.
  predicate Preemptive(k: Kernel)
    requires k.current in k.prio
  {
    k.switchAsked || k.yieldPending ||
    forall t <- k.st.home :: k.st.home[t] < MAX_PRIORITIES ==> k.st.home[t] <= k.prio[k.current]
  }

  predicate Counted(k: Kernel)
    requires |k.st.lists| == STATE_LISTS && |k.ev.lists| >= 1
  {
    && k.numTasks == |k.prio|
    && k.deletedWaiting == |k.st.Items(TERMINATED)|
    && (k.nesting == 0 ==> k.ev.Items(PENDING) == [])
  }

  ghost predicate Ranked(k: Kernel) {
    k.Partitioned() && TopOk(k) && IdleReady(k) && Preemptive(k)
  }

  // r arises from k by readying blocked tasks, and `asked` tells of every one that outranks the
  // running task.
  predicate Readied(k: Kernel, r: Kernel, asked: bool)
    requires k.current in k.prio
  {
    && r == k.(st := r.st, ev := r.ev, nextUnblock := r.nextUnblock, topReady := r.topReady,
               tick := r.tick, overflows := r.overflows, delayed := r.delayed, yieldPending := r.yieldPending,
               nesting := r.nesting, pended := r.pended)
    && r.st.home.Keys == k.st.home.Keys
    && (forall t <- k.st.home ::
          || r.st.home[t] == k.st.home[t]
          || (&& MAX_PRIORITIES <= k.st.home[t] <= SUSPENDED && r.st.home[t] < MAX_PRIORITIES
              && (r.st.home[t] <= k.prio[k.current] || asked)))
    && (TopOk(k) ==> TopOk(r))
    && |r.st.lists| == |k.st.lists| == STATE_LISTS && |r.ev.lists| == |k.ev.lists| >= 1
    && r.st.Items(TERMINATED) == k.st.Items(TERMINATED)
    && (k.ev.Items(PENDING) == [] ==> r.ev.Items(PENDING) == [])
    && (forall t <- r.ev.home :: t in k.ev.home && r.ev.home[t] == k.ev.home[t])
  }

  lemma ReadiedTrans(k: Kernel, r: Kernel, s: Kernel, a: bool, b: bool)
    requires k.current in k.prio && Readied(k, r, a) && Readied(r, s, b)
    ensures Readied(k, s, a || b)
  {
  }

  lemma TopUnblock(k: Kernel, t: Task)
    requires k.Partitioned() && t in k.st.home && TopOk(k)
    ensures TopOk(Unblock(k, t))
  {
  }

  lemma ReadyOne(k: Kernel, t: Task, asked: bool)
    requires k.Partitioned() && t in k.st.home && DELAYED_1 <= k.st.home[t] <= SUSPENDED
    requires k.Outranks(t) ==> asked
    ensures Readied(k, Unblock(k, t), asked)
  {
    if TopOk(k) {
      TopUnblock(k, t);
    }
  }

  // One round of the loop of xTaskIncrementTick.
  lemma ProcessOne(k: Kernel, s: bool) returns (n: Kernel, a: bool)
    requires k.Partitioned() && k.st.Items(k.delayed) != []
    requires k.st.Items(k.delayed)[0] in k.wake && k.tick >= k.wake[k.st.Items(k.delayed)[0]]
    ensures n.Partitioned() && |n.st.Items(n.delayed)| < |k.st.Items(k.delayed)|
    ensures Readied(k, n, a) && n.yieldPending == k.yieldPending && n.nesting == k.nesting && (s ==> a)
    ensures k.st.Items(k.delayed)[0] in k.st.home && n == Unblock(k, k.st.Items(k.delayed)[0])
    ensures k.st.Items(k.delayed)[0] in k.prio && a == (s || k.Outranks(k.st.Items(k.delayed)[0]))
    ensures ProcessDelayed(k, s) == ProcessDelayed(n, a)
  {
    var t := k.st.Items(k.delayed)[0];
    assert t in k.st.Items(k.delayed);
    n, a := Unblock(k, t), s || k.Outranks(t);
    ReadyOne(k, t, a);
  }

  lemma {:induction false} ProcessReadies(k: Kernel, s: bool)
    requires k.Partitioned()
    ensures var r := ProcessDelayed(k, s); Readied(k, r.kernel, r.switchRequired) && (s ==> r.switchRequired)
    ensures var r := ProcessDelayed(k, s).kernel; r.yieldPending == k.yieldPending && r.nesting == k.nesting
    decreases |k.st.Items(k.delayed)|
  {
    hide Unblock;
    hide Homes;
    var d := k.st.Items(k.delayed);
    assert k.current in k.prio by { CurrentLives(k); }
    if d != [] {
      DelayedHead(k);
    }
    if d == [] || k.tick < k.wake[d[0]] {
      ReadiedUnchanged(k, ProcessDelayed(k, s).kernel, s);
    } else {
      hide Readied;
      var n, a := ProcessOne(k, s);
      ProcessReadies(n, a);
      var r := ProcessDelayed(n, a);
      ReadiedTrans(k, n, r.kernel, a, r.switchRequired);
    }
  }

  lemma ReadiedUnchanged(k: Kernel, r: Kernel, asked: bool)
    requires k.Partitioned() && r == k.(nextUnblock := r.nextUnblock)
    ensures Readied(k, r, asked)
  {
  }

  lemma AdvanceReadies(k: Kernel) returns (a: Kernel)
    requires k.Partitioned()
    ensures a == Advance(k) && a.Partitioned() && Readied(k, a, false)
    ensures a.yieldPending == k.yieldPending && a.nesting == k.nesting
  {
    a := Advance(k);
  }

  lemma TickReadies(k: Kernel)
    requires k.Partitioned()
    ensures var r := IncrementTick(k); Readied(k, r.kernel, r.switchRequired)
    ensures var r := IncrementTick(k);
            && r.kernel.yieldPending == k.yieldPending && r.kernel.nesting == k.nesting
            && (k.nesting == 0 && k.yieldPending ==> r.switchRequired)
  {
    if k.nesting == 0 {
      var a := AdvanceReadies(k);
      if a.tick >= a.nextUnblock {
        ProcessReadies(a, false);
        var p := ProcessDelayed(a, false);
        ReadiedTrans(k, a, p.kernel, false, p.switchRequired);
      }
    }
  }

  // One round of the first loop of xTaskResumeAll.
  lemma DrainOne(k: Kernel) returns (n: Kernel)
    requires k.Partitioned() && k.ev.Items(PENDING) != []
    ensures n.Partitioned() && |n.ev.Items(PENDING)| < |k.ev.Items(PENDING)|
    ensures Readied(k, n, n.yieldPending) && (k.yieldPending ==> n.yieldPending)
    ensures n.nesting == k.nesting && n.pended == k.pended
    ensures Drain(k) == Drain(n)
  {
    hide Readied;
    hide Unblock;
    hide Homes;
    var t := k.ev.Items(PENDING)[0];
    PendingHead(k);
    n := Unblock(k, t).(yieldPending := k.yieldPending || k.Outranks(t));
    ReadyOneYielding(k, t, n);
  }

  lemma ReadyOneYielding(k: Kernel, t: Task, n: Kernel)
    requires k.Partitioned() && t in k.st.home && DELAYED_1 <= k.st.home[t] <= SUSPENDED
    requires n == Unblock(k, t).(yieldPending := k.yieldPending || k.Outranks(t))
    ensures n.Partitioned() && Readied(k, n, n.yieldPending)
  {
    ReadyOne(k, t, n.yieldPending);
  }

  lemma {:induction false} DrainReadies(k: Kernel)
    requires k.Partitioned()
    ensures var r := Drain(k); Readied(k, r, r.yieldPending) && (k.yieldPending ==> r.yieldPending)
    ensures Drain(k).nesting == k.nesting && Drain(k).pended == k.pended
    decreases |k.ev.Items(PENDING)|
  {
    if k.ev.Items(PENDING) != [] {
      var n := DrainOne(k);
      DrainReadies(n);
      ReadiedTrans(k, n, Drain(n), n.yieldPending, Drain(n).yieldPending);
    }
  }

  // One round of the second loop of xTaskResumeAll.
  lemma PendedTickReadies(k: Kernel)
    requires k.Partitioned()
    ensures var a := PendedTick(k);
            Readied(k, a, a.yieldPending) && (k.yieldPending ==> a.yieldPending) && a.nesting == k.nesting
  {
    TickReadies(k);
  }

  ghost predicate Caught(k: Kernel, r: Kernel)
    requires k.current in k.prio
  {
    r.Partitioned() && Readied(k, r, r.yieldPending) && (k.yieldPending ==> r.yieldPending) && r.nesting == k.nesting
  }

  lemma CaughtOneMore(k: Kernel, p: Kernel) returns (r: Kernel)
    requires k.Partitioned() && Caught(k, p)
    ensures r == PendedTick(p) && Caught(k, r)
  {
    PendedTickReadies(p);
    r := PendedTick(p);
    ReadiedTrans(k, p, r, p.yieldPending, r.yieldPending);
  }

  lemma CatchUpReadies(k: Kernel, n: nat)
    requires k.Partitioned()
    ensures Caught(k, CatchUp(k, n))
  {
    var inv := (p: Kernel, i: nat) => Caught(k, p);
    forall p: Kernel, i: nat | inv(p, i) ensures inv(Ticker()(p), i + 1) {
      var r := CaughtOneMore(k, p);
    }
    IterateKeeps(Ticker(), k, n, inv);
  }

  lemma CollectReadies(k: Kernel) returns (c: Kernel)
    requires k.Partitioned()
    ensures c == Collect(k) && c.Partitioned() && Readied(k, c, c.yieldPending)
    ensures (k.yieldPending ==> c.yieldPending) && c.nesting == k.nesting && c.pended == k.pended
  {
    DrainReadies(k);
    c := Collect(k);
  }

  lemma ResumedReadies(k: Kernel) returns (g: Kernel)
    requires k.Partitioned()
    ensures g == CatchUp(Collect(k), Collect(k).pended) && g.Partitioned() && Readied(k, g, g.yieldPending)
    ensures (k.yieldPending ==> g.yieldPending) && g.nesting == k.nesting
  {
    var c := CollectReadies(k);
    CatchUpReadies(c, c.pended);
    g := CatchUp(c, c.pended);
    ReadiedTrans(k, c, g, c.yieldPending, g.yieldPending);
  }

  lemma ResumeReadies(k: Kernel)
    requires k.Partitioned() && k.nesting > 0
    ensures var r := Scheduler.ResumeAll(k);
            && Readied(k, r.(switchAsked := k.switchAsked), r.yieldPending)
            && (k.switchAsked ==> r.switchAsked) && (k.yieldPending ==> r.yieldPending)
            && r.nesting == k.nesting - 1
            && (k.numTasks > 0 ==> r.pended == if k.nesting == 1 then 0 else k.pended)
  {
    var d := k.(nesting := k.nesting - 1);
    if d.nesting == 0 && d.numTasks > 0 {
      var g := ResumedReadies(d);
      ReadiedNested(k, d, g, k.switchAsked || g.yieldPending);
    }
  }

  lemma ReadiedNested(k: Kernel, d: Kernel, g: Kernel, s: bool)
    requires k.current in k.prio && d == k.(nesting := d.nesting) && Readied(d, g, g.yieldPending)
    ensures Readied(k, g.(pended := 0, switchAsked := s).(switchAsked := k.switchAsked), g.yieldPending)
    ensures g.switchAsked == k.switchAsked
  {
  }

  // ---- ranks: the upper bound, the idle task, and no missed preemption

  lemma RankedReadied(k: Kernel, r: Kernel, asked: bool)
    requires Ranked(k) && r.Partitioned() && Readied(k, r.(switchAsked := k.switchAsked), asked)
    requires asked ==> r.switchAsked || r.yieldPending
    requires k.switchAsked || k.yieldPending ==> r.switchAsked || r.yieldPending
    ensures Ranked(r)
  {
  }

  lemma RankedTick(k: Kernel)
    requires Ranked(k)
    ensures Ranked(Scheduler.TickInterrupt(k))
  {
    TickReadies(k);
    var t := IncrementTick(k);
    RankedReadied(k, Scheduler.TickInterrupt(k), t.switchRequired);
  }

  lemma RankedResumeAll(k: Kernel)
    requires Ranked(k) && k.nesting > 0
    ensures Ranked(Scheduler.ResumeAll(k))
  {
    ResumeReadies(k);
    RankedReadied(k, Scheduler.ResumeAll(k), Scheduler.ResumeAll(k).yieldPending);
  }

  lemma RankedEvents(k: Kernel, r: Kernel)
    requires Ranked(k) && r.Partitioned()
    requires r == k.(ev := r.ev, yieldPending := r.yieldPending) && (k.yieldPending ==> r.yieldPending)
    ensures Ranked(r)
  {
  }

  lemma RankedWake(k: Kernel, q: nat)
    requires Ranked(k) && PENDING < q < |k.ev.lists| && k.ev.Items(q) != []
    ensures Ranked(Wake(k, q))
  {
    if k.nesting == 0 {
      RankedNotify(k, q);
    } else {
      RankedEvents(k, Wake(k, q));
    }
  }

  lemma RankedNotify(k: Kernel, q: nat)
    requires Ranked(k) && PENDING < q < |k.ev.lists| && k.ev.Items(q) != [] && k.nesting == 0
    ensures Ranked(Wake(k, q))
  {
    var t := k.ev.Items(q)[0];
    assert t in k.ev.Items(q);
    ReadyOne(k, t, k.yieldPending || k.Outranks(t));
    var r := Wake(k, q);
    RankedReadied(k, r, k.yieldPending || k.Outranks(t));
  }

  lemma RankedBlock(k: Kernel, ticks: Tick, indefinitely: bool)
    requires Ranked(k) && CanBlock(k, ticks)
    ensures Ranked(Block(k, ticks, indefinitely))
  {
  }

  lemma RankedCreate(k: Kernel, t: Task, p: nat)
    requires Ranked(k) && t !in k.prio
    ensures Ranked(Create(k, t, p))
  {
  }

  lemma RankedSuspend(k: Kernel, t: Task)
    requires Ranked(k) && CanStop(k, t)
    ensures Ranked(Suspend(k, t))
  {
  }

  lemma RankedResume(k: Kernel, t: Task)
    requires Ranked(k)
    ensures Ranked(Resume(k, t))
  {
  }

  lemma RankedDelete(k: Kernel, t: Task)
    requires Ranked(k) && CanStop(k, t)
    ensures Ranked(Delete(k, t))
  {
  }

  lemma RankedCleanUp(k: Kernel)
    requires Ranked(k) && k.running && k.current == k.idle && k.st.Items(TERMINATED) != []
    ensures k.current !in k.st.Items(TERMINATED) && Ranked(CleanUp(k))
  {
    assert k.st.Items(TERMINATED)[0] in k.st.Items(TERMINATED);
  }

  lemma TaskHome(k: Kernel, t: Task)
    requires k.Partitioned() && t in k.prio
    ensures t in k.st.home && (k.st.home[t] < MAX_PRIORITIES ==> k.st.home[t] == k.prio[t])
  {
  }

  lemma Reprioritised(k: Kernel, t: Task, p: nat)
    requires k.Partitioned() && TopOk(k) && t in k.prio && p < MAX_PRIORITIES
    ensures var r := Reprioritise(k, t, p);
            && TopOk(r)
            && (forall u <- k.st.home :: u != t ==> r.st.home[u] == k.st.home[u])
            && (r.st.home[t] < MAX_PRIORITIES ==> r.st.home[t] == p)
            && r.st.home.Keys == k.st.home.Keys
  {
    TaskHome(k, t);
    hide Kernel.Partitioned;
    hide Reprioritise;
  }

  lemma RankedPrioritySet(k: Kernel, t: Task, p: nat)
    requires Ranked(k) && t in k.prio && t != k.idle
    ensures Ranked(PrioritySet(k, t, p))
  {
    Reprioritised(k, t, Clip(p));
  }

  // vTaskSwitchContext terminates with a task selected that is ready and outranked by none; all
  // it needs is that the recorded top priority bounds the ready ones and that there is one.
  lemma SelectsHighest(k: Kernel, i: Task)
    requires k.Partitioned() && TopOk(k) && k.Ready(i)
    ensures exists t :: t in k.st.home && k.st.home[t] <= k.topReady
    ensures var r := SwitchContext(k);
            k.nesting == 0 ==>
              && r.Ready(r.current) && !r.yieldPending && !r.switchAsked
              && (forall t <- r.st.home :: r.Ready(t) ==> r.prio[t] <= r.prio[r.current])
              && r.prio == k.prio && r.st.home == k.st.home && TopOk(r)
  {
    assert k.st.home[i] <= k.topReady;
    if k.nesting == 0 {
      var p := TopList(k, k.topReady);
      var ring := k.st.lists[p].Advance();
      assert ring.Owner() in k.st.lists[p].items;
      forall t <- k.st.home | k.st.home[t] < MAX_PRIORITIES ensures k.st.home[t] <= p {
        assert t in k.st.lists[k.st.home[t]].items;
        assert k.st.Items(k.st.home[t]) != [];
      }
    }
  }

  lemma SwitchSelectsHighest(k: Kernel)
    requires Ranked(k) && k.running
    ensures exists t :: t in k.st.home && k.st.home[t] <= k.topReady
    ensures Ranked(SwitchContext(k))
  {
    SelectsHighest(k, k.idle);
  }

  // ---- counts

  lemma {:induction false} DrainEmpties(k: Kernel)
    requires k.Partitioned()
    ensures Drain(k).ev.Items(PENDING) == []
    decreases |k.ev.Items(PENDING)|
  {
    if k.ev.Items(PENDING) != [] {
      var n := DrainOne(k);
      DrainEmpties(n);
    }
  }

  lemma CountedReadied(k: Kernel, r: Kernel, asked: bool)
    requires k.Partitioned() && r.Partitioned() && Readied(k, r.(switchAsked := k.switchAsked), asked)
    requires k.numTasks == |k.prio| && k.deletedWaiting == |k.st.Items(TERMINATED)|
    requires r.nesting == 0 ==> k.ev.Items(PENDING) == [] || r.ev.Items(PENDING) == []
    ensures Counted(r)
  {
  }

  lemma CountedTick(k: Kernel)
    requires k.Partitioned() && Counted(k)
    ensures Counted(Scheduler.TickInterrupt(k))
  {
    TickReadies(k);
    CountedReadied(k, Scheduler.TickInterrupt(k), IncrementTick(k).switchRequired);
  }

  lemma CountedCollect(k: Kernel) returns (c: Kernel)
    requires k.Partitioned() && k.numTasks == |k.prio| && k.deletedWaiting == |k.st.Items(TERMINATED)|
    ensures c == Collect(k) && c.Partitioned() && Counted(c) && c.ev.Items(PENDING) == []
  {
    DrainEmpties(k);
    c := CollectReadies(k);
    assert c.ev.Items(PENDING) == [];
  }

  lemma CountedResumed(k: Kernel) returns (g: Kernel)
    requires k.Partitioned() && k.numTasks == |k.prio| && k.deletedWaiting == |k.st.Items(TERMINATED)|
    ensures g == CatchUp(Collect(k), Collect(k).pended) && g.Partitioned() && Counted(g)
    ensures g.ev.Items(PENDING) == []
  {
    var c := CountedCollect(k);
    CatchUpReadies(c, c.pended);
    g := CatchUp(c, c.pended);
  }

  lemma CountedResumeAll(k: Kernel)
    requires k.Partitioned() && Counted(k) && k.nesting > 0
    ensures Counted(Scheduler.ResumeAll(k))
  {
    var d := k.(nesting := k.nesting - 1);
    if d.nesting == 0 {
      assert k.current in k.prio;
      var g := CountedResumed(d);
    }
  }

  lemma CountedWake(k: Kernel, q: nat)
    requires k.Partitioned() && Counted(k) && PENDING < q < |k.ev.lists| && k.ev.Items(q) != []
    ensures Counted(Wake(k, q))
  {
    var t := k.ev.Items(q)[0];
    assert t in k.ev.Items(q);
    if k.nesting == 0 {
      ReadyOne(k, t, true);
    }
  }

  lemma CountedBlock(k: Kernel, ticks: Tick, indefinitely: bool)
    requires k.Partitioned() && Counted(k) && CanBlock(k, ticks)
    ensures Counted(Block(k, ticks, indefinitely))
  {
  }

  lemma CountedCreate(k: Kernel, t: Task, p: nat)
    requires k.Partitioned() && Counted(k) && t !in k.prio
    ensures Counted(Create(k, t, p))
  {
    assert k.prio[t := Clip(p)].Keys == k.prio.Keys + {t};
  }

  // Suspending or deleting a task keeps the count of tasks waiting for clean-up right exactly
  // when the task is not itself waiting for clean-up.
  lemma CountedSuspend(k: Kernel, t: Task)
    requires k.Partitioned() && Counted(k) && t in k.prio
    ensures Counted(Suspend(k, t)) <==> k.st.home[t] != TERMINATED
  {
    assert t in k.st.lists[k.st.home[t]].items;
    PendingStays(k, t);
  }

  lemma CountedDeleteOther(k: Kernel, t: Task)
    requires k.Partitioned() && Counted(k) && t in k.prio && t != k.current
    ensures Counted(Delete(k, t)) <==> k.st.home[t] != TERMINATED
  {
    assert t in k.st.lists[k.st.home[t]].items;
    assert (k.prio - {t}).Keys == k.prio.Keys - {t};
    TakeValid(k.st, t);
    PendingStays(k, t);
  }

  lemma CountedDeleteSelf(k: Kernel)
    requires k.Partitioned() && Counted(k) && k.st.home[k.current] != TERMINATED
    ensures Counted(Delete(k, k.current))
  {
    PendingStays(k, k.current);
  }

  lemma PendingStays(k: Kernel, t: Task)
    requires k.Partitioned() && Counted(k)
    ensures k.nesting == 0 ==> OffEvents(k, t).ev.Items(PENDING) == []
  {
    assert t in k.ev.home ==> t in k.ev.lists[k.ev.home[t]].items;
  }

  lemma CountedDelete(k: Kernel, t: Task)
    requires k.Partitioned() && Counted(k) && t in k.prio && (t == k.current ==> k.st.home[t] != TERMINATED)
    ensures Counted(Delete(k, t)) <==> k.st.home[t] != TERMINATED
  {
    if t == k.current {
      CountedDeleteSelf(k);
    } else {
      CountedDeleteOther(k, t);
    }
  }

  lemma CountedCleanUp(k: Kernel)
    requires k.Partitioned() && Counted(k) && k.deletedWaiting > 0 && k.current !in k.st.Items(TERMINATED)
    ensures Counted(CleanUp(k))
  {
    var t := k.st.Items(TERMINATED)[0];
    assert t in k.st.lists[TERMINATED].items;
    assert (k.prio - {t}).Keys == k.prio.Keys - {t};
    TakeValid(k.st, t);
  }

  lemma CountedReprioritise(k: Kernel, t: Task, p: nat)
    requires k.Partitioned() && Counted(k) && t in k.prio && p < MAX_PRIORITIES
    ensures Counted(Reprioritise(k, t, p))
  {
    assert k.prio[t := p].Keys == k.prio.Keys;
  }

  lemma CountedPrioritySet(k: Kernel, t: Task, p: nat)
    requires k.Partitioned() && Counted(k) && t in k.prio
    ensures Counted(PrioritySet(k, t, p))
  {
    CountedReprioritise(k, t, Clip(p));
  }

  lemma CountedResume(k: Kernel, t: Task)
    requires k.Partitioned() && Counted(k)
    ensures Counted(Resume(k, t))
  {
  }

  lemma {:induction false} ProcessPended(k: Kernel, s: bool)
    requires k.Partitioned()
    ensures ProcessDelayed(k, s).kernel.pended == k.pended
    decreases |k.st.Items(k.delayed)|
  {
    var d := k.st.Items(k.delayed);
    if d != [] {
      assert d[0] in d;
      if k.tick >= k.wake[d[0]] {
        var n, a := ProcessOne(k, s);
        ProcessPended(n, a);
      }
    }
  }

  // An unsuspended tick leaves the pended count alone.
  lemma TickPended(k: Kernel)
    requires k.Partitioned() && k.nesting == 0
    ensures IncrementTick(k).kernel.pended == k.pended
  {
    var a := AdvanceReadies(k);
    ProcessPended(a, false);
  }
}
