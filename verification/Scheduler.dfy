// The single-core scheduler as a state and what each critical section does to it.  Every
// function below is one uninterrupted region of tasks.c.
module Scheduler {

  import opened ListModel
  import opened Shelves
  import opened SortedLists
  import opened Ticks

  const MAX_PRIORITIES := 4

  // The state lists: one ready list per priority, the two delayed lists that trade places when
  // the tick count wraps, the suspended list and the list of deleted tasks.
  const DELAYED_1 := 4
  const DELAYED_2 := 5
  const SUSPENDED := 6
  const TERMINATED := 7
  const STATE_LISTS := 8

  // The event lists: the pending ready list, then the lists of the queues.
  const PENDING := 0

  datatype Kernel = Kernel(
    prio: map<Task, nat>,        // uxPriority
    st: Shelf,                   // state list items
    wake: map<Task, Tick>,       // their values
    delayed: nat,                // which list pxDelayedTaskList points to
    ev: Shelf,                   // event list items
    current: Task,               // pxCurrentTCB
    idle: Task,
    running: bool,               // xSchedulerRunning
    tick: Tick,                  // xTickCount
    overflows: Tick,             // xNumOfOverflows
    nextUnblock: Tick,           // xNextTaskUnblockTime
    topReady: nat,               // uxTopReadyPriority
    pended: nat,                 // xPendedTicks
    nesting: nat,                // uxSchedulerSuspended
    yieldPending: bool,          // xYieldPendings[ 0 ]
    switchAsked: bool,           // the port has been asked for a context switch
    numTasks: int,               // uxCurrentNumberOfTasks
    deletedWaiting: int)         // uxDeletedTasksWaitingCleanUp
  {
    function Overflow(): nat
      requires delayed == DELAYED_1 || delayed == DELAYED_2
    {
      DELAYED_1 + DELAYED_2 - delayed
    }

    predicate Ready(t: Task) { t in st.home && st.home[t] < MAX_PRIORITIES }

    predicate Outranks(t: Task)
      requires t in prio
    {
      current in prio && prio[t] > prio[current]
    }

    // Every live task is in exactly one state list, ready tasks in the list of their priority;
    // only tasks that are blocked are in an event list.
    ghost predicate Partitioned() {
      && st.Valid() && |st.lists| == STATE_LISTS
      && ev.Valid() && |ev.lists| >= 1
      && (delayed == DELAYED_1 || delayed == DELAYED_2)
      && Homes(prio, st.home, ev.home, wake, current)
    }
  }

  ghost predicate Homes(prio: map<Task, nat>, home: map<Task, nat>, evHome: map<Task, nat>,
                        wake: map<Task, Tick>, current: Task)
  {
    && prio.Keys == home.Keys
    && (forall t <- prio :: t in wake && prio[t] < MAX_PRIORITIES)
    && (forall t <- home :: home[t] < MAX_PRIORITIES ==> home[t] == prio[t])
    && (forall t <- evHome :: t in home && MAX_PRIORITIES <= home[t] <= SUSPENDED)
    && current in prio
  }

  function Max(a: nat, b: nat): nat { if a > b then a else b }

  function Clip(p: nat): nat { if p >= MAX_PRIORITIES then MAX_PRIORITIES - 1 else p }

  function Iterate<T>(f: T -> T, x: T, n: nat): T {
    if n == 0 then x else f(Iterate(f, x, n - 1))
  }

  // What one application keeps, any number keeps.
  lemma {:induction false} IterateKeeps<T(!new)>(f: T -> T, x: T, n: nat, inv: (T, nat) -> bool)
    requires inv(x, 0)
    requires forall p: T, i: nat {:trigger inv(p, i), f(p)} :: inv(p, i) ==> inv(f(p), i + 1)
    ensures inv(Iterate(f, x, n), n)
    decreases n
  {
    if n > 0 {
      IterateKeeps(f, x, n - 1, inv);
    }
  }

  // ---- building blocks

  lemma HomesMoved(k: Kernel, t: Task, i: nat, until: Tick)
    requires k.Partitioned() && t in k.prio && MAX_PRIORITIES <= i <= SUSPENDED
    ensures Homes(k.prio, k.st.home[t := i], k.ev.home, k.wake, k.current)
    ensures Homes(k.prio, k.st.home[t := i], k.ev.home, k.wake[t := until], k.current)
  {
  }

  lemma HomesRanked(k: Kernel, t: Task, p: nat)
    requires k.Partitioned() && t in k.prio && p < MAX_PRIORITIES
    ensures k.st.home[t] == k.prio[t] ==>
              Homes(k.prio[t := p], k.st.home[t := p], k.ev.home, k.wake, k.current)
    ensures k.st.home[t] != k.prio[t] ==> Homes(k.prio[t := p], k.st.home, k.ev.home, k.wake, k.current)
  {
  }

  lemma CurrentLives(k: Kernel)
    requires k.Partitioned()
    ensures k.current in k.prio && (k.delayed == DELAYED_1 || k.delayed == DELAYED_2)
  {
  }

  lemma DelayedHead(k: Kernel)
    requires k.Partitioned() && k.st.Items(k.delayed) != []
    ensures var t := k.st.Items(k.delayed)[0]; t in k.wake && t in k.st.home && k.st.home[t] == k.delayed && t in k.prio && k.current in k.prio
  {
    assert k.st.Items(k.delayed)[0] in k.st.lists[k.delayed].items;
  }

  lemma PendingHead(k: Kernel)
    requires k.Partitioned() && k.ev.Items(PENDING) != []
    ensures var t := k.ev.Items(PENDING)[0];
            && t in k.ev.home && k.ev.home[t] == PENDING && t in k.st.home && DELAYED_1 <= k.st.home[t] <= SUSPENDED
            && t in k.prio && k.current in k.prio
  {
    assert k.ev.Items(PENDING)[0] in k.ev.lists[PENDING].items;
  }

  // listREMOVE_ITEM on the state list, then prvAddTaskToReadyList.
  function ToReady(k: Kernel, t: Task): (r: Kernel)
    requires k.Partitioned() && t in k.st.home && t !in k.ev.home
    ensures r.Partitioned() && r.st.home == k.st.home[t := k.prio[t]]
    ensures r == k.(st := r.st, topReady := Max(k.topReady, k.prio[t]))
    ensures forall i :: MAX_PRIORITIES <= i < STATE_LISTS ==>
              r.st.Items(i) == if i == k.st.home[t] then RemoveOne(k.st.Items(i), t) else k.st.Items(i)
  {
    k.(st := MoveEnd(k.st, t, k.prio[t]), topReady := Max(k.topReady, k.prio[t]))
  }

  // Leave the event list, if on one.
  function OffEvents(k: Kernel, t: Task): (r: Kernel)
    requires k.Partitioned()
    ensures r.Partitioned() && r.ev.home == k.ev.home - {t} && r == k.(ev := r.ev)
    ensures |r.ev.lists| == |k.ev.lists|
    ensures forall i :: 0 <= i < |k.ev.lists| ==>
              r.ev.Items(i) ==
              if t in k.ev.home && i == k.ev.home[t] then RemoveOne(k.ev.Items(i), t) else k.ev.Items(i)
  {
    if t in k.ev.home then
      TakeValid(k.ev, t);
      k.(ev := k.ev.Take(t))
    else k
  }

  // A blocked task leaves its event list, if on one, and becomes ready.
  function Unblock(k: Kernel, t: Task): (r: Kernel)
    requires k.Partitioned() && t in k.st.home
    ensures r.Partitioned() && r.st.home == k.st.home[t := k.prio[t]] && r.ev.home == k.ev.home - {t}
    ensures r == k.(st := r.st, ev := r.ev, topReady := Max(k.topReady, k.prio[t]))
    ensures forall i :: MAX_PRIORITIES <= i < STATE_LISTS ==>
              r.st.Items(i) == if i == k.st.home[t] then RemoveOne(k.st.Items(i), t) else k.st.Items(i)
    ensures |r.ev.lists| == |k.ev.lists|
    ensures forall i :: 0 <= i < |k.ev.lists| ==>
              r.ev.Items(i) ==
              if t in k.ev.home && i == k.ev.home[t] then RemoveOne(k.ev.Items(i), t) else k.ev.Items(i)
  {
    ToReady(OffEvents(k, t), t)
  }

  // prvResetNextTaskUnblockTime
  function ResetUnblock(k: Kernel): Kernel
    requires k.Partitioned()
  {
    var d := k.st.Items(k.delayed);
    assert d != [] ==> d[0] in d;
    k.(nextUnblock := if d == [] then MAX_DELAY else k.wake[d[0]])
  }

  // ---- time

  datatype Ticked = Ticked(kernel: Kernel, switchRequired: bool)

  // The loop of xTaskIncrementTick: ready every task at the head of the delayed list that is due.
  function ProcessDelayed(k: Kernel, switchRequired: bool): (r: Ticked)
    requires k.Partitioned()
    ensures r.kernel.Partitioned()
    decreases |k.st.Items(k.delayed)|
  {
    var d := k.st.Items(k.delayed);
    if d == [] then Ticked(k.(nextUnblock := MAX_DELAY), switchRequired)
    else
      var t := d[0];
      assert t in d;
      if k.tick < k.wake[t] then Ticked(k.(nextUnblock := k.wake[t]), switchRequired)
      else ProcessDelayed(Unblock(k, t), switchRequired || k.Outranks(t))
  }

  // taskSWITCH_DELAYED_LISTS
  function SwitchLists(k: Kernel): (r: Kernel)
    requires k.Partitioned()
    ensures r.Partitioned()
  {
    ResetUnblock(k.(delayed := k.Overflow(), overflows := Plus(k.overflows, 1)))
  }

  // The tick count of xTaskIncrementTick advances; the lists trade places when it wraps.
  function Advance(k: Kernel): (r: Kernel)
    requires k.Partitioned()
    ensures r.Partitioned()
  {
    var next := Plus(k.tick, 1);
    if next == 0 then SwitchLists(k.(tick := next)) else k.(tick := next)
  }

  function IncrementTick(k: Kernel): (r: Ticked)
    requires k.Partitioned()
    ensures r.kernel.Partitioned()
  {
    if k.nesting != 0 then Ticked(k.(pended := k.pended + 1), false)
    else
      var a := Advance(k);
      var p := if a.tick >= a.nextUnblock then ProcessDelayed(a, false) else Ticked(a, false);
      var slice := |p.kernel.st.Items(p.kernel.prio[p.kernel.current])| > 1;
      Ticked(p.kernel, p.switchRequired || slice || p.kernel.yieldPending)
  }

  // The tick interrupt: what xTaskIncrementTick returns is acted on by the port.
  function TickInterrupt(k: Kernel): (r: Kernel)
    requires k.Partitioned()
    ensures r.Partitioned()
  {
    var t := IncrementTick(k);
    t.kernel.(switchAsked := t.kernel.switchAsked || t.switchRequired)
  }

  // The current task waits in a delayed list until the tick count reads `until`.
  function DelayUntil(k: Kernel, until: Tick): (r: Kernel)
    requires k.Partitioned() && k.Ready(k.current)
    ensures r.Partitioned() && r == k.(st := r.st, wake := r.wake, nextUnblock := r.nextUnblock)
    ensures r.st.home == k.st.home[k.current := if until < k.tick then k.Overflow() else k.delayed]
  {
    var t := k.current;
    var i := if until < k.tick then k.Overflow() else k.delayed;
    HomesMoved(k, t, i, until);
    var st := MoveAt(k.st, t, i, ScanPoint(Values(k.wake, k.st.Items(i)), until));
    k.(st := st, wake := k.wake[t := until],
       nextUnblock := if until >= k.tick && until < k.nextUnblock then until else k.nextUnblock)
  }

  // prvAddCurrentTaskToDelayedList
  function Block(k: Kernel, ticks: Tick, indefinitely: bool): (r: Kernel)
    requires k.Partitioned() && k.Ready(k.current)
    ensures r.Partitioned() && r == k.(st := r.st, wake := r.wake, nextUnblock := r.nextUnblock)
    ensures k.current in r.st.home && r.st.home == k.st.home[k.current := r.st.home[k.current]]
    ensures DELAYED_1 <= r.st.home[k.current] <= SUSPENDED
  {
    if ticks == MAX_DELAY && indefinitely then
      HomesMoved(k, k.current, SUSPENDED, k.wake[k.current]);
      k.(st := MoveEnd(k.st, k.current, SUSPENDED))
    else DelayUntil(k, Plus(k.tick, ticks))
  }

  // ---- events

  // Event lists are sorted by descending priority.
  function EventKeys(prio: map<Task, nat>, s: seq<Task>): (w: seq<nat>)
    requires forall t <- s :: t in prio && prio[t] < MAX_PRIORITIES
    ensures |w| == |s|
  {
    seq(|s|, i requires 0 <= i < |s| => MAX_PRIORITIES - prio[s[i]])
  }

  // vTaskPlaceOnEventList
  function PlaceOn(k: Kernel, q: nat, ticks: Tick): (r: Kernel)
    requires k.Partitioned() && k.Ready(k.current) && PENDING < q < |k.ev.lists|
    ensures r.Partitioned()
  {
    var t := k.current;
    var at := ScanPoint(EventKeys(k.prio, k.ev.Items(q)), MAX_PRIORITIES - k.prio[t]);
    PutAtValid(k.ev, q, at, t);
    var b := Block(k, ticks, true);
    b.(ev := k.ev.PutAt(q, at, t))
  }

  // vTaskPlaceOnEventListRestricted
  function PlaceRestricted(k: Kernel, q: nat, ticks: Tick, indefinitely: bool): (r: Kernel)
    requires k.Partitioned() && k.Ready(k.current) && PENDING < q < |k.ev.lists|
    ensures r.Partitioned()
  {
    PutEndValid(k.ev, q, k.current);
    var b := Block(k, if indefinitely then MAX_DELAY else ticks, indefinitely);
    b.(ev := k.ev.PutEnd(q, k.current))
  }

  // The task leaves its event list for the pending ready list.
  function ToPending(k: Kernel, t: Task): (r: Kernel)
    requires k.Partitioned() && t in k.ev.home
    ensures r.Partitioned() && r == k.(ev := r.ev) && |r.ev.lists| == |k.ev.lists|
  {
    var o := OffEvents(k, t);
    PutEndValid(o.ev, PENDING, t);
    o.(ev := o.ev.PutEnd(PENDING, t))
  }

  // xTaskRemoveFromEventList
  function Wake(k: Kernel, q: nat): (r: Kernel)
    requires k.Partitioned() && PENDING < q < |k.ev.lists| && k.ev.Items(q) != []
    ensures r.Partitioned()
  {
    var t := k.ev.Items(q)[0];
    assert t in k.ev.Items(q);
    var yielding := k.yieldPending || k.Outranks(t);
    if k.nesting == 0 then Unblock(k, t).(yieldPending := yielding)
    else ToPending(k, t).(yieldPending := yielding)
  }

  // ---- the suspended scheduler

  // The first loop of xTaskResumeAll.
  function Drain(k: Kernel): (r: Kernel)
    requires k.Partitioned()
    ensures r.Partitioned()
    decreases |k.ev.Items(PENDING)|
  {
    var p := k.ev.Items(PENDING);
    if p == [] then k
    else
      var t := p[0];
      assert t in p;
      Drain(Unblock(k, t).(yieldPending := k.yieldPending || k.Outranks(t)))
  }

  // Its second loop: the ticks that arrived meanwhile, one by one.
  function PendedTick(k: Kernel): (r: Kernel)
    requires k.Partitioned()
    ensures r.Partitioned()
  {
    var t := IncrementTick(k);
    t.kernel.(yieldPending := t.kernel.yieldPending || t.switchRequired)
  }

  ghost function Ticker(): Kernel -> Kernel {
    (p: Kernel) => if p.Partitioned() then PendedTick(p) else p
  }

  ghost function CatchUp(k: Kernel, n: nat): (r: Kernel)
    requires k.Partitioned()
    ensures r.Partitioned()
  {
    IterateKeeps(Ticker(), k, n, (p: Kernel, i: nat) => p.Partitioned());
    Iterate(Ticker(), k, n)
  }

  lemma CatchUpNext(k: Kernel, n: nat)
    requires k.Partitioned()
    ensures CatchUp(k, 0) == k && CatchUp(k, n + 1) == PendedTick(CatchUp(k, n))
  {
    hide PendedTick;
  }

  // Empty the pending ready list, and look again for the next task due.
  function Collect(k: Kernel): (r: Kernel)
    requires k.Partitioned()
    ensures r.Partitioned()
  {
    if k.ev.Items(PENDING) == [] then k else ResetUnblock(Drain(k))
  }

  ghost function ResumeAll(k: Kernel): (r: Kernel)
    requires k.Partitioned() && k.nesting > 0
    ensures r.Partitioned()
  {
    var d := k.(nesting := k.nesting - 1);
    if d.nesting > 0 || d.numTasks <= 0 then d
    else
      var c := Collect(d);
      var g := CatchUp(c, c.pended).(pended := 0);
      g.(switchAsked := g.switchAsked || g.yieldPending)
  }

  // ---- task management

  // prvAddNewTaskToReadyList, with the test for a yield that follows it.
  function Create(k: Kernel, t: Task, p: nat): (r: Kernel)
    requires k.Partitioned() && t !in k.prio
    ensures r.Partitioned()
  {
    PutEndValid(k.st, Clip(p), t);
    k.(prio := k.prio[t := Clip(p)], wake := k.wake[t := 0], st := k.st.PutEnd(Clip(p), t),
       topReady := Max(k.topReady, Clip(p)), numTasks := k.numTasks + 1,
       current := if !k.running && k.prio[k.current] <= Clip(p) then t else k.current,
       switchAsked := k.switchAsked || (k.running && k.prio[k.current] < Clip(p)))
  }

  function ToSuspended(k: Kernel, t: Task): (r: Kernel)
    requires k.Partitioned() && t in k.prio && t !in k.ev.home
    ensures r.Partitioned() && r == k.(st := r.st) && r.st.home == k.st.home[t := SUSPENDED]
    ensures k.st.home[t] != SUSPENDED ==> |r.st.Items(SUSPENDED)| == |k.st.Items(SUSPENDED)| + 1
    ensures forall i :: 0 <= i < STATE_LISTS && i != SUSPENDED ==>
              r.st.Items(i) == if i == k.st.home[t] then RemoveOne(k.st.Items(i), t) else k.st.Items(i)
  {
    HomesMoved(k, t, SUSPENDED, k.wake[t]);
    k.(st := MoveEnd(k.st, t, SUSPENDED))
  }

  // The first critical section of vTaskSuspend.  The second is prvResetNextTaskUnblockTime, and
  // then a task that has suspended itself yields.
  function Suspend(k: Kernel, t: Task): (r: Kernel)
    requires k.Partitioned() && t in k.prio
    ensures r.Partitioned()
  {
    ToSuspended(OffEvents(k, t), t)
  }

  // vTaskResume; prvTaskIsTaskSuspended is the condition.
  function Resume(k: Kernel, t: Task): (r: Kernel)
    requires k.Partitioned()
    ensures r.Partitioned()
  {
    if t != k.current && t in k.st.home && k.st.home[t] == SUSPENDED && t !in k.ev.home then
      ToReady(k, t).(switchAsked := k.switchAsked || k.Outranks(t))
    else k
  }

  // A task leaves the state lists for good.
  function Forget(k: Kernel, t: Task): (r: Kernel)
    requires k.Partitioned() && t in k.prio && t != k.current && t !in k.ev.home
    ensures r.Partitioned() && r == k.(st := r.st, prio := k.prio - {t}, numTasks := k.numTasks - 1)
    ensures r.st.home == k.st.home - {t}
    ensures forall i :: 0 <= i < STATE_LISTS ==>
              r.st.Items(i) == if i == k.st.home[t] then RemoveOne(k.st.Items(i), t) else k.st.Items(i)
  {
    TakeValid(k.st, t);
    k.(st := k.st.Take(t), prio := k.prio - {t}, numTasks := k.numTasks - 1)
  }

  // The critical section of vTaskDelete; a task that has deleted itself then yields.
  function Delete(k: Kernel, t: Task): (r: Kernel)
    requires k.Partitioned() && t in k.prio
    ensures r.Partitioned()
  {
    var o := OffEvents(k, t);
    if t == k.current then
      o.(st := MoveEnd(o.st, t, TERMINATED), deletedWaiting := k.deletedWaiting + 1)
    else ResetUnblock(Forget(o, t))
  }

  // One round of prvCheckTasksWaitingTermination, run by the idle task.
  function CleanUp(k: Kernel): (r: Kernel)
    requires k.Partitioned() && k.st.Items(TERMINATED) != [] && k.current !in k.st.Items(TERMINATED)
    ensures r.Partitioned() && r.current == k.current
    ensures r.st.Items(TERMINATED) == RemoveOne(k.st.Items(TERMINATED), k.st.Items(TERMINATED)[0])
  {
    var t := k.st.Items(TERMINATED)[0];
    assert t in k.st.Items(TERMINATED);
    Forget(k, t).(deletedWaiting := k.deletedWaiting - 1)
  }

  // All rounds of it.
  function CleanUpAll(k: Kernel): (r: Kernel)
    requires k.Partitioned() && k.current !in k.st.Items(TERMINATED)
    ensures r.Partitioned() && r.st.Items(TERMINATED) == []
    ensures r.numTasks == k.numTasks - |k.st.Items(TERMINATED)|
    ensures r.deletedWaiting == k.deletedWaiting - |k.st.Items(TERMINATED)|
    decreases |k.st.Items(TERMINATED)|
  {
    var d := k.st.Items(TERMINATED);
    if d == [] then k
    else
      RemoveOneContents(d, d[0]);
      CleanUpAll(CleanUp(k))
  }

  // A task gets a new priority, and a ready task moves to the list of it.
  function Reprioritise(k: Kernel, t: Task, p: nat): (r: Kernel)
    requires k.Partitioned() && t in k.prio && p < MAX_PRIORITIES
    ensures r.Partitioned() && r.prio == k.prio[t := p]
    ensures r == k.(prio := r.prio, st := r.st, topReady := r.topReady) && t in k.st.home
    ensures r.st.home == if k.st.home[t] == k.prio[t] then k.st.home[t := p] else k.st.home
    ensures r.topReady == if k.st.home[t] == k.prio[t] then Max(k.topReady, p) else k.topReady
  {
    HomesRanked(k, t, p);
    if k.st.home[t] == k.prio[t] then
      k.(prio := k.prio[t := p], st := MoveEnd(k.st, t, p), topReady := Max(k.topReady, p))
    else
      k.(prio := k.prio[t := p])
  }

  // vTaskPrioritySet
  function PrioritySet(k: Kernel, t: Task, newPriority: nat): (r: Kernel)
    requires k.Partitioned() && t in k.prio
    ensures r.Partitioned()
  {
    var p := Clip(newPriority);
    if p == k.prio[t] then k
    else
      var required := if p > k.prio[t] then t != k.current && p > k.prio[k.current] else t == k.current;
      Reprioritise(k, t, p).(switchAsked := k.switchAsked || required)
  }

  // taskSELECT_HIGHEST_PRIORITY_TASK
  function TopList(k: Kernel, top: nat): (p: nat)
    requires k.Partitioned() && top < MAX_PRIORITIES
    requires exists t :: t in k.st.home && k.st.home[t] <= top
    ensures p <= top && k.st.Items(p) != []
    ensures forall i :: p < i <= top ==> k.st.Items(i) == []
    decreases top
  {
    if k.st.Items(top) == [] then
      assert top > 0 by {
        var t :| t in k.st.home && k.st.home[t] <= top;
        assert t in k.st.Items(k.st.home[t]);
      }
      assert exists t :: t in k.st.home && k.st.home[t] <= top - 1 by {
        var t :| t in k.st.home && k.st.home[t] <= top;
        assert t in k.st.Items(k.st.home[t]);
      }
      TopList(k, top - 1)
    else top
  }

  // vTaskSwitchContext
  function SwitchContext(k: Kernel): (r: Kernel)
    requires k.Partitioned()
    requires k.topReady < MAX_PRIORITIES && exists t :: t in k.st.home && k.st.home[t] <= k.topReady
    ensures r.Partitioned()
  {
    if k.nesting != 0 then k.(yieldPending := true, switchAsked := false)
    else
      var p := TopList(k, k.topReady);
      var ring := k.st.lists[p].Advance();
      assert ring.Owner() in k.st.lists[p].items;
      k.(st := Shelf(k.st.lists[p := ring], k.st.home), current := ring.Owner(), topReady := p,
         yieldPending := false, switchAsked := false)
  }
}
