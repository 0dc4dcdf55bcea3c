// The scheduler's critical sections as code over its global variables; every method is proved to
// do to the state what the function of the same name in Scheduler says.
module SchedulerCode {

  import opened ListModel
  import opened Shelves
  import opened SortedLists
  import opened Ticks
  import opened Scheduler

  lemma NotEmptyBelow(k: Kernel, top: nat)
    requires k.Partitioned() && top < MAX_PRIORITIES && k.st.Items(top) == []
    requires exists t :: t in k.st.home && k.st.home[t] <= top
    ensures top > 0 && exists t :: t in k.st.home && k.st.home[t] <= top - 1
    ensures TopList(k, top) == TopList(k, top - 1)
  {
    var t :| t in k.st.home && k.st.home[t] <= top;
    assert t in k.st.lists[k.st.home[t]].items;
    assert k.st.Items(k.st.home[t]) != [];
  }

  lemma {:induction false} TopListSame(a: Kernel, b: Kernel)
    requires a.Partitioned() && b.Partitioned() && a.st == b.st && a.topReady == b.topReady < MAX_PRIORITIES
    requires exists t :: t in a.st.home && a.st.home[t] <= a.topReady
    ensures TopList(a, a.topReady) == TopList(b, b.topReady)
  {
    var p, q := TopList(a, a.topReady), TopList(b, b.topReady);
    assert a.st.Items(p) != [] && b.st.Items(q) != [];
  }

  lemma SamePartition(a: Kernel, b: Kernel)
    requires a.Partitioned() && b.prio == a.prio && b.st == a.st && b.wake == a.wake
    requires b.delayed == a.delayed && b.ev == a.ev && b.current == a.current
    ensures b.Partitioned()
  {
  }

  // A live task can leave its state list and join another.
  lemma TaskMovable(k: Kernel, t: Task, i: nat)
    requires k.Partitioned() && t in k.prio && i < STATE_LISTS
    ensures k.current in k.prio && t in k.st.home && t in k.wake && k.st.Valid() && |k.st.lists| == STATE_LISTS
    ensures k.st.Holds(t) && k.st.Take(t).Has(i)
  {
    TakeValid(k.st, t);
  }

  lemma TopRing(k: Kernel, top: nat)
    requires k.Partitioned() && top < MAX_PRIORITIES
    ensures top < |k.st.lists| && k.st.lists[top].Valid()
  {
  }

  lemma FirstTerminated(k: Kernel)
    requires k.Partitioned() && k.st.Items(TERMINATED) != [] && k.current !in k.st.Items(TERMINATED)
    ensures var t := k.st.Items(TERMINATED)[0];
            && t in k.prio && t != k.current && t !in k.ev.home && |k.st.lists| == STATE_LISTS
            && k.current !in Forget(k, t).st.Items(TERMINATED)
  {
    var t := k.st.Items(TERMINATED)[0];
    assert t in k.st.Items(TERMINATED);
    RemoveOneContents(k.st.Items(TERMINATED), t);
  }

  // A ready task can leave its list for a delayed list.
  lemma CurrentMovable(k: Kernel, i: nat)
    requires k.Partitioned() && k.Ready(k.current) && (i == k.delayed || i == DELAYED_1 + DELAYED_2 - k.delayed)
    ensures k.st.Holds(k.current) && |k.st.lists| == STATE_LISTS && i < STATE_LISTS
    ensures k.st.Take(k.current).Has(i) && forall t <- k.st.Items(i) :: t in k.wake
    ensures k.st.Take(k.current).Items(i) == k.st.Items(i)
  {
    TakeValid(k.st, k.current);
  }

  lemma EventsPlaceable(k: Kernel, q: nat)
    requires k.Partitioned() && k.Ready(k.current) && PENDING < q < |k.ev.lists|
    ensures k.current in k.prio && k.prio[k.current] < MAX_PRIORITIES && k.ev.Has(q)
    ensures forall t <- k.ev.Items(q) :: t in k.prio && k.prio[t] < MAX_PRIORITIES
    ensures ScanPoint(EventKeys(k.prio, k.ev.Items(q)), MAX_PRIORITIES - k.prio[k.current]) <= |k.ev.Items(q)|
  {
    assert forall t <- k.ev.Items(q) :: t in k.ev.lists[q].items;
  }

  lemma DelayByParts(k: Kernel, i: nat, until: Tick)
    requires k.Partitioned() && k.Ready(k.current) && i == if until < k.tick then k.Overflow() else k.delayed
    ensures i < |k.st.lists| && (forall t <- k.st.Items(i) :: t in k.wake)
    ensures var at := ScanPoint(Values(k.wake, k.st.Items(i)), until);
            && k.st.Holds(k.current) && k.st.Take(k.current).Has(i)
            && at <= |k.st.Take(k.current).Items(i)|
            && DelayUntil(k, until) ==
               k.(st := k.st.Take(k.current).PutAt(i, at, k.current), wake := k.wake[k.current := until],
                  nextUnblock := if until >= k.tick && until < k.nextUnblock then until else k.nextUnblock)
  {
    CurrentMovable(k, i);
  }

  class KernelState {
    var prio: map<Task, nat>
    var st: Shelf
    var wake: map<Task, Tick>
    var delayed: nat
    var ev: Shelf
    var current: Task
    var idle: Task
    var running: bool
    var tick: Tick
    var overflows: Tick
    var nextUnblock: Tick
    var topReady: nat
    var pended: nat
    var nesting: nat
    var yieldPending: bool
    var switchAsked: bool
    var numTasks: int
    var deletedWaiting: int

    ghost function View(): Kernel
      reads this
    {
      Kernel(prio, st, wake, delayed, ev, current, idle, running, tick, overflows, nextUnblock, topReady,
             pended, nesting, yieldPending, switchAsked, numTasks, deletedWaiting)
    }

    // prvAddTaskToReadyList after listREMOVE_ITEM
    method MakeReady(t: Task)
      requires View().Partitioned() && t in st.home && t !in ev.home
      modifies this`st, this`topReady
      ensures View() == ToReady(old(View()), t)
    {
      TakeValid(st, t);
      st := st.Take(t);
      if prio[t] > topReady {
        topReady := prio[t];
      }
      st := st.PutEnd(prio[t], t);
    }

    // Off the event list, if on one.
    method LeaveEvents(t: Task)
      requires View().Partitioned()
      modifies this`ev
      ensures View() == OffEvents(old(View()), t)
    {
      if t in ev.home {
        ev := ev.Take(t);
      }
    }

    // A blocked task off its event list and into its ready list.
    method ReadyBlocked(t: Task)
      requires View().Partitioned() && t in st.home
      modifies this`ev, this`st, this`topReady
      ensures View() == Unblock(old(View()), t)
    {
      LeaveEvents(t);
      MakeReady(t);
    }

    method ResetNextTaskUnblockTime()
      requires View().Partitioned()
      modifies this`nextUnblock
      ensures View() == ResetUnblock(old(View()))
    {
      var d := st.Items(delayed);
      if d == [] {
        nextUnblock := MAX_DELAY;
      } else {
        assert d[0] in d;
        nextUnblock := wake[d[0]];
      }
    }

    method SwitchDelayedLists()
      requires View().Partitioned()
      modifies this`delayed, this`overflows, this`nextUnblock
      ensures View() == SwitchLists(old(View()))
    {
      delayed := DELAYED_1 + DELAYED_2 - delayed;
      overflows := Plus(overflows, 1);
      ResetNextTaskUnblockTime();
    }

    // One round of the loop of xTaskIncrementTick.
    method ReadyHead() returns (switchRequired: bool)
      requires View().Partitioned() && st.Items(delayed) != []
      requires st.Items(delayed)[0] in wake && tick >= wake[st.Items(delayed)[0]]
      modifies this
      ensures View().Partitioned() && |st.Items(delayed)| < |old(st).Items(old(delayed))|
      ensures forall s :: ProcessDelayed(old(View()), s) == ProcessDelayed(View(), s || switchRequired)
    {
      hide Unblock;
      hide Homes;
      DelayedHead(View());
      var t := st.Items(delayed)[0];
      switchRequired := prio[t] > prio[current];
      ReadyBlocked(t);
    }

    // The loop of xTaskIncrementTick.
    method ReadyDueTasks() returns (switchRequired: bool)
      requires View().Partitioned()
      modifies this
      ensures Ticked(View(), switchRequired) == ProcessDelayed(old(View()), false)
    {
      hide Homes;
      hide Unblock;
      switchRequired := false;
      ghost var start := View();
      while true
        invariant View().Partitioned()
        invariant ProcessDelayed(View(), switchRequired) == ProcessDelayed(start, false)
        decreases |st.Items(delayed)|
      {
        var d := st.Items(delayed);
        if d == [] {
          nextUnblock := MAX_DELAY;
          break;
        }
        DelayedHead(View());
        if tick < wake[d[0]] {
          nextUnblock := wake[d[0]];
          break;
        }
        ghost var before := View();
        hide ProcessDelayed;
        var higher := ReadyHead();
        assert ProcessDelayed(before, switchRequired) == ProcessDelayed(View(), switchRequired || higher);
        if higher {
          switchRequired := true;
        }
      }
    }

    method IncrementTick() returns (switchRequired: bool)
      requires View().Partitioned()
      modifies this
      ensures Ticked(View(), switchRequired) == Scheduler.IncrementTick(old(View()))
    {
      switchRequired := false;
      if nesting == 0 {
        tick := Plus(tick, 1);
        if tick == 0 {
          SwitchDelayedLists();
        }
        assert View() == Advance(old(View()));
        if tick >= nextUnblock {
          switchRequired := ReadyDueTasks();
        }
        if |st.Items(prio[current])| > 1 {
          switchRequired := true;
        }
        if yieldPending {
          switchRequired := true;
        }
      } else {
        pended := pended + 1;
      }
    }

    // The finite branch of prvAddCurrentTaskToDelayedList.
    method DelayCurrentUntil(until: Tick)
      requires View().Partitioned() && View().Ready(current)
      modifies this
      ensures View() == DelayUntil(old(View()), until)
    {
      hide Kernel.Partitioned;
      hide Shelf.Valid;
      hide Shelf.Take;
      hide Shelf.PutAt;
      hide Values;
      hide DelayUntil;
      hide Shelf.Holds;
      hide Shelf.Has;
      hide Kernel.Ready;
      hide ScanPoint;
      CurrentLives(View());
      var t := current;
      var i := if until < tick then DELAYED_1 + DELAYED_2 - delayed else delayed;
      CurrentMovable(View(), i);
      DelayByParts(View(), i, until);
      st := st.Take(t);
      var at := Scan(Values(wake, st.Items(i)), until);
      st, wake := st.PutAt(i, at, t), wake[t := until];
      if until >= tick && until < nextUnblock {
        nextUnblock := until;
      }
    }

    method AddCurrentTaskToDelayedList(ticks: Tick, indefinitely: bool)
      requires View().Partitioned() && View().Ready(current)
      modifies this
      ensures View() == Block(old(View()), ticks, indefinitely)
    {
      hide DelayUntil;
      if ticks == MAX_DELAY && indefinitely {
        TakeValid(st, current);
        st := st.Take(current).PutEnd(SUSPENDED, current);
      } else {
        DelayCurrentUntil(Plus(tick, ticks));
      }
    }

    method PlaceOnEventList(q: nat, ticks: Tick)
      requires View().Partitioned() && View().Ready(current) && PENDING < q < |ev.lists|
      modifies this
      ensures View() == PlaceOn(old(View()), q, ticks)
    {
      hide Kernel.Partitioned;
      hide EventKeys;
      hide Shelf.PutAt;
      hide Block;
      hide ScanPoint;
      EventsPlaceable(View(), q);
      var at := Scan(EventKeys(prio, ev.Items(q)), MAX_PRIORITIES - prio[current]);
      var list := ev.PutAt(q, at, current);
      AddCurrentTaskToDelayedList(ticks, true);
      ev := list;
    }

    method PlaceOnEventListRestricted(q: nat, ticks: Tick, indefinitely: bool)
      requires View().Partitioned() && View().Ready(current) && PENDING < q < |ev.lists|
      modifies this
      ensures View() == PlaceRestricted(old(View()), q, ticks, indefinitely)
    {
      var list := ev.PutEnd(q, current);
      var wait := if indefinitely then MAX_DELAY else ticks;
      AddCurrentTaskToDelayedList(wait, indefinitely);
      ev := list;
    }

    // The task leaves its event list and becomes ready, or pending if the scheduler is suspended.
    method WakeTask(t: Task)
      requires View().Partitioned() && t in ev.home && t in st.home
      modifies this`st, this`ev, this`topReady
      ensures View() == if nesting == 0 then Unblock(old(View()), t) else ToPending(old(View()), t)
    {
      LeaveEvents(t);
      if nesting == 0 {
        MakeReady(t);
      } else {
        ev := ev.PutEnd(PENDING, t);
      }
    }

    lemma HeadKnown(q: nat)
      requires View().Partitioned() && PENDING < q < |ev.lists| && ev.Items(q) != []
      ensures var t := ev.Items(q)[0]; t in ev.home && t in st.home && t in prio && current in prio
    {
      assert ev.Items(q)[0] in ev.lists[q].items;
    }

    method RemoveFromEventList(q: nat) returns (higher: bool)
      requires View().Partitioned() && PENDING < q < |ev.lists| && ev.Items(q) != []
      modifies this`st, this`ev, this`topReady, this`yieldPending
      ensures View() == Wake(old(View()), q)
      ensures var t := old(ev).Items(q)[0]; t in prio && current in prio && higher == (prio[t] > prio[current])
    {
      hide Kernel.Partitioned;
      hide Homes;
      hide Shelf.Valid;
      hide Unblock;
      hide ToPending;
      HeadKnown(q);
      var t := ev.Items(q)[0];
      WakeTask(t);
      higher := prio[t] > prio[current];
      if higher {
        yieldPending := true;
      }
    }

    method SuspendScheduler()
      modifies this`nesting
      ensures View() == old(View()).(nesting := old(nesting) + 1)
    {
      nesting := nesting + 1;
    }

    // One round of the first loop of xTaskResumeAll.
    method ReadyPending()
      requires View().Partitioned() && ev.Items(PENDING) != []
      modifies this
      ensures View().Partitioned() && |ev.Items(PENDING)| < |old(ev).Items(PENDING)|
      ensures Drain(old(View())) == Drain(View())
    {
      hide Unblock;
      hide Homes;
      PendingHead(View());
      var t := ev.Items(PENDING)[0];
      ReadyBlocked(t);
      if prio[t] > prio[current] {
        yieldPending := true;
      }
    }

    // The first loop of xTaskResumeAll.
    method DrainPending() returns (any: bool)
      requires View().Partitioned()
      modifies this
      ensures View() == Drain(old(View())) && any == (old(ev).Items(PENDING) != [])
      ensures !any ==> View() == old(View())
    {
      any := false;
      ghost var start := View();
      while ev.Items(PENDING) != []
        invariant View().Partitioned() && Drain(View()) == Drain(start)
        invariant any || View() == start
        invariant any ==> start.ev.Items(PENDING) != []
        decreases |ev.Items(PENDING)|
      {
        hide Drain;
        ReadyPending();
        any := true;
      }
    }

    // The second loop of xTaskResumeAll.
    method TakePendedTicks()
      requires View().Partitioned()
      modifies this
      ensures View() == CatchUp(old(View()), old(pended))
    {
      hide Kernel.Partitioned;
      hide CatchUp;
      hide PendedTick;
      ghost var start := View();
      ghost var done: nat := 0;
      CatchUpNext(start, 0);
      var counts: nat := pended;
      while counts > 0
        invariant View().Partitioned() && counts + done == start.pended
        invariant View() == CatchUp(start, done)
      {
        CatchUpNext(start, done);
        PendedTickTaken();
        counts := counts - 1;
        done := done + 1;
      }
    }

    method PendedTickTaken()
      requires View().Partitioned()
      modifies this
      ensures View() == PendedTick(old(View()))
    {
      hide Scheduler.IncrementTick;
      var required := IncrementTick();
      if required {
        yieldPending := true;
      }
    }

    // What the outermost xTaskResumeAll does.
    method CatchUpWithEvents()
      requires View().Partitioned()
      modifies this
      ensures var c := Collect(old(View())); View() == CatchUp(c, c.pended)
    {
      hide Drain;
      hide CatchUp;
      var any := DrainPending();
      if any {
        ResetNextTaskUnblockTime();
      }
      TakePendedTicks();
    }

    method ResumeScheduler() returns (alreadyYielded: bool)
      requires View().Partitioned() && nesting > 0
      modifies this
      ensures View() == ResumeAll(old(View()))
      ensures alreadyYielded == (old(nesting) == 1 && old(numTasks) > 0 && yieldPending)
    {
      hide Kernel.Partitioned;
      hide Collect;
      hide CatchUp;
      alreadyYielded := false;
      nesting := nesting - 1;
      SamePartition(old(View()), View());
      if nesting == 0 && numTasks > 0 {
        CatchUpWithEvents();
        pended := 0;
        if yieldPending {
          alreadyYielded := true;
          switchAsked := true;
        }
      }
    }

    // The loop of taskSELECT_HIGHEST_PRIORITY_TASK.
    method TopReadyList() returns (top: nat)
      requires View().Partitioned() && topReady < MAX_PRIORITIES
      requires exists t :: t in st.home && st.home[t] <= topReady
      ensures top == TopList(View(), topReady)
    {
      top := topReady;
      while st.Items(top) == []
        invariant top < MAX_PRIORITIES && (exists t :: t in st.home && st.home[t] <= top)
        invariant TopList(View(), top) == TopList(View(), topReady)
        decreases top
      {
        NotEmptyBelow(View(), top);
        top := top - 1;
      }
    }

    // vTaskSwitchContext
    method SwitchContext()
      requires View().Partitioned() && topReady < MAX_PRIORITIES
      requires exists t :: t in st.home && st.home[t] <= topReady
      modifies this`st, this`current, this`topReady, this`yieldPending, this`switchAsked
      ensures View() == Scheduler.SwitchContext(old(View()))
    {
      hide Kernel.Partitioned;
      hide TopList;
      switchAsked := false;
      if nesting != 0 {
        yieldPending := true;
      } else {
        yieldPending := false;
        SamePartition(old(View()), View());
        var top := TopReadyList();
        TopListSame(old(View()), View());
        TopRing(View(), top);
        var ring := st.lists[top].Advance();
        st := Shelf(st.lists[top := ring], st.home);
        current := ring.Owner();
        topReady := top;
      }
    }

    // Before the scheduler runs, the latest task of the highest priority is the current one.
    method ChooseCurrent(t: Task, p: nat)
      requires current in prio
      modifies this`current, this`switchAsked
      ensures current == if !running && prio[old(current)] <= p then t else old(current)
      ensures switchAsked == (old(switchAsked) || (running && prio[old(current)] < p))
    {
      if !running {
        if prio[current] <= p {
          current := t;
        }
      } else if prio[current] < p {
        switchAsked := true;
      }
    }

    method EnterNewTask(t: Task, p: nat)
      requires View().Partitioned() && t !in prio && p < MAX_PRIORITIES
      modifies this`numTasks, this`topReady, this`prio, this`wake, this`st
      ensures st == old(st).PutEnd(p, t) && topReady == Max(old(topReady), p)
      ensures prio == old(prio)[t := p] && wake == old(wake)[t := 0] && numTasks == old(numTasks) + 1
    {
      numTasks := numTasks + 1;
      prio, wake := prio[t := p], wake[t := 0];
      if p > topReady {
        topReady := p;
      }
      st := st.PutEnd(p, t);
    }

    method AddNewTaskToReadyList(t: Task, priority: nat)
      requires View().Partitioned() && t !in prio
      modifies this
      ensures View() == Create(old(View()), t, priority)
    {
      hide Kernel.Partitioned;
      hide Shelf.PutEnd;
      hide Shelf.Has;
      var p := if priority >= MAX_PRIORITIES then MAX_PRIORITIES - 1 else priority;
      CurrentLives(View());
      EnterNewTask(t, p);
      ChooseCurrent(t, p);
    }

    method SuspendItem(t: Task)
      requires View().Partitioned() && t in prio && t !in ev.home
      modifies this`st
      ensures View() == ToSuspended(old(View()), t)
    {
      hide Kernel.Partitioned;
      hide Shelf.Valid;
      hide Shelf.Take;
      hide Shelf.PutEnd;
      TaskMovable(View(), t, SUSPENDED);
      st := st.Take(t).PutEnd(SUSPENDED, t);
    }

    // The first critical section of vTaskSuspend.
    method SuspendTask(t: Task)
      requires View().Partitioned() && t in prio
      modifies this
      ensures View() == Suspend(old(View()), t)
    {
      hide Kernel.Partitioned;
      hide ToSuspended;
      LeaveEvents(t);
      SuspendItem(t);
    }

    method TaskSuspend(t: Task)
      requires View().Partitioned() && t in prio && running
      modifies this
      ensures View() == ResetUnblock(Suspend(old(View()), t)).(switchAsked := old(switchAsked) || t == current)
    {
      hide Kernel.Partitioned;
      hide Suspend;
      hide ResetUnblock;
      SuspendKeeps(View(), t);
      SuspendTask(t);
      ResetKeeps(View());
      ResetNextTaskUnblockTime();
      if t == current {
        switchAsked := true;
      }
    }

    lemma SuspendKeeps(k: Kernel, t: Task)
      requires k.Partitioned() && t in k.prio
      ensures var r := Suspend(k, t); r == k.(st := r.st, ev := r.ev)
    {
    }

    lemma ResetKeeps(k: Kernel)
      requires k.Partitioned()
      ensures var r := ResetUnblock(k); r == k.(nextUnblock := r.nextUnblock)
    {
    }

    method TaskResume(t: Task)
      requires View().Partitioned()
      modifies this
      ensures View() == Resume(old(View()), t)
    {
      if t != current && t in st.home && st.home[t] == SUSPENDED && t !in ev.home {
        MakeReady(t);
        if prio[current] < prio[t] {
          switchAsked := true;
        }
      }
    }

    method DeleteCurrent()
      requires View().Partitioned()
      modifies this
      ensures View() == Delete(old(View()), old(current))
    {
      hide Kernel.Partitioned;
      hide Shelf.Valid;
      hide Shelf.Take;
      hide Shelf.PutEnd;
      CurrentLives(View());
      LeaveEvents(current);
      TaskMovable(View(), current, TERMINATED);
      st := st.Take(current).PutEnd(TERMINATED, current);
      deletedWaiting := deletedWaiting + 1;
    }

    method ForgetTask(t: Task)
      requires View().Partitioned() && t in prio && t != current && t !in ev.home
      modifies this`st, this`prio, this`numTasks
      ensures View() == Forget(old(View()), t)
    {
      hide Kernel.Partitioned;
      hide Shelf.Valid;
      hide Shelf.Take;
      TaskMovable(View(), t, TERMINATED);
      st, prio, numTasks := st.Take(t), prio - {t}, numTasks - 1;
    }

    method DeleteOther(t: Task)
      requires View().Partitioned() && t in prio && t != current
      modifies this
      ensures View() == Delete(old(View()), t)
    {
      hide Kernel.Partitioned;
      hide Forget;
      LeaveEvents(t);
      ForgetTask(t);
      ResetNextTaskUnblockTime();
    }

    method TaskDelete(t: Task)
      requires View().Partitioned() && t in prio && running
      modifies this
      ensures View() == Delete(old(View()), t).(switchAsked := old(switchAsked) || t == current)
    {
      hide Delete;
      DeleteKeeps(View(), t);
      if t == current {
        DeleteCurrent();
        switchAsked := true;
      } else {
        DeleteOther(t);
      }
    }

    lemma DeleteKeeps(k: Kernel, t: Task)
      requires k.Partitioned() && t in k.prio
      ensures Delete(k, t).current == k.current && Delete(k, t).switchAsked == k.switchAsked
    {
    }

    method SetPriority(t: Task, p: nat)
      requires View().Partitioned() && t in prio && p < MAX_PRIORITIES
      modifies this
      ensures View() == Reprioritise(old(View()), t, p)
    {
      hide Kernel.Partitioned;
      hide Shelf.Valid;
      hide Shelf.Take;
      hide Shelf.PutEnd;
      TaskMovable(View(), t, p);
      var onEntry := prio[t];
      prio := prio[t := p];
      if st.home[t] == onEntry {
        st := st.Take(t);
        if p > topReady {
          topReady := p;
        }
        st := st.PutEnd(p, t);
      }
    }

    method TaskPrioritySet(t: Task, newPriority: nat)
      requires View().Partitioned() && t in prio
      modifies this
      ensures View() == PrioritySet(old(View()), t, newPriority)
    {
      hide Reprioritise;
      var p := if newPriority >= MAX_PRIORITIES then MAX_PRIORITIES - 1 else newPriority;
      if prio[t] != p {
        var required := false;
        if p > prio[t] {
          if t != current {
            if p > prio[current] {
              required := true;
            }
          }
        } else if t == current {
          required := true;
        }
        SetPriority(t, p);
        if required {
          switchAsked := true;
        }
      }
    }

    // prvCheckTasksWaitingTermination, run by the idle task.
    method CheckTasksWaitingTermination()
      requires View().Partitioned() && deletedWaiting == |st.Items(TERMINATED)|
      requires current !in st.Items(TERMINATED)
      modifies this
      ensures View() == CleanUpAll(old(View())) && deletedWaiting == 0
    {
      ghost var start := View();
      while deletedWaiting > 0
        invariant View().Partitioned() && deletedWaiting == |st.Items(TERMINATED)|
        invariant current !in st.Items(TERMINATED) && CleanUpAll(View()) == CleanUpAll(start)
        decreases deletedWaiting
      {
        DeleteFirstTerminated();
      }
    }

    method DeleteFirstTerminated()
      requires View().Partitioned() && st.Items(TERMINATED) != [] && current !in st.Items(TERMINATED)
      modifies this
      ensures View() == CleanUp(old(View())) && current !in st.Items(TERMINATED)
    {
      hide Kernel.Partitioned;
      hide Forget;
      FirstTerminated(View());
      var t := st.Items(TERMINATED)[0];
      ForgetTask(t);
      deletedWaiting := deletedWaiting - 1;
    }
  }
}
