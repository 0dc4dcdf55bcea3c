// The scheduler as a machine: the events that can happen, and what every reachable state keeps.
// Besides the kernel's state the machine knows unbounded time, counted in processed ticks, the
// unbounded time at which every waiting task is due, and the number of tick interrupts.
module SchedulerMachine {

  import opened ListModel
  import opened Shelves
  import opened Ticks
  import opened Scheduler
  import opened SchedulerKept
  import opened SchedulerTime

  datatype Machine = Machine(k: Kernel, now: nat, due: map<Task, nat>, interrupts: nat)

  datatype Event =
    | TaskCreate(task: Task, priority: nat)
    | StartScheduler(idle: Task)
    | AddToDelayed(ticks: Tick, indefinitely: bool)
    | PlaceOnEventList(list: nat, ticks: Tick)
    | PlaceRestricted(list: nat, ticks: Tick, indefinitely: bool)
    | RemoveFromEventList(list: nat)
    | TickInterrupt
    | SuspendAll
    | ResumeAll
    | TaskSuspend(task: Task)
    | ResetUnblockTime
    | TaskResume(task: Task)
    | TaskDelete(task: Task)
    | TaskPrioritySet(task: Task, priority: nat)
    | ContextSwitch
    | Yield
    | MissedYield
    | IdleCleanUp

  predicate Enabled(m: Machine, e: Event) {
    var k := m.k;
    && (match e
        case TaskCreate(_, _) => true
        case StartScheduler(_) => !k.running
        case _ => k.running)
    && match e
       case TaskCreate(t, _) => t !in k.prio
       case StartScheduler(i) => i in k.st.home && k.st.home[i] == 0
       case AddToDelayed(ticks, _) => CanBlock(k, ticks)
       case PlaceOnEventList(q, ticks) => CanBlock(k, ticks) && PENDING < q < |k.ev.lists|
       case PlaceRestricted(q, ticks, _) => CanBlock(k, ticks) && PENDING < q < |k.ev.lists|
       case RemoveFromEventList(q) => PENDING < q < |k.ev.lists| && k.ev.Items(q) != []
       case ResumeAll => k.nesting > 0
       case TaskSuspend(t) => CanStop(k, t)
       case TaskDelete(t) => CanStop(k, t)
       case TaskPrioritySet(t, _) => t in k.prio && t != k.idle
       case ContextSwitch => k.switchAsked
       case IdleCleanUp => k.current == k.idle && k.deletedWaiting > 0
       case _ => true
  }

  // Before the scheduler is started, tasks can only be created.
  ghost predicate Unstarted(m: Machine) {
    m.now == 0 && m.k.nesting == 0 && m.k.tick == 0 && forall t <- m.k.st.home :: m.k.st.home[t] < MAX_PRIORITIES
  }

  ghost predicate Inv(m: Machine) {
    && Ranked(m.k) && Counted(m.k) && TimeOk(m.k, m.now, m.due)
    && m.interrupts == m.now + m.k.pended
    && (m.k.nesting == 0 ==> m.k.pended == 0)
    && (!m.k.running ==> Unstarted(m))
  }

  function Waits(m: Machine, k: Kernel, ticks: Tick): Machine {
    m.(k := k, due := m.due[m.k.current := m.now + Max(ticks, 1)])
  }

  ghost function Step(m: Machine, e: Event): Machine
    requires Inv(m) && Enabled(m, e)
  {
    var k := m.k;
    match e
    case TaskCreate(t, p) => m.(k := Create(k, t, p))
    case StartScheduler(i) => m.(k := k.(running := true, idle := i, tick := 0, nextUnblock := MAX_DELAY))
    case AddToDelayed(ticks, indefinitely) => Waits(m, Block(k, ticks, indefinitely), ticks)
    case PlaceOnEventList(q, ticks) => Waits(m, PlaceOn(k, q, ticks), ticks)
    case PlaceRestricted(q, ticks, indefinitely) =>
      Waits(m, Scheduler.PlaceRestricted(k, q, ticks, indefinitely), if indefinitely then MAX_DELAY else ticks)
    case RemoveFromEventList(q) => m.(k := Wake(k, q))
    case TickInterrupt =>
      m.(k := Scheduler.TickInterrupt(k), interrupts := m.interrupts + 1,
         now := if k.nesting == 0 then m.now + 1 else m.now)
    case SuspendAll => m.(k := k.(nesting := k.nesting + 1))
    case ResumeAll => m.(k := Scheduler.ResumeAll(k), now := if k.nesting == 1 then m.now + k.pended else m.now)
    case TaskSuspend(t) => m.(k := Suspend(k, t))
    case ResetUnblockTime => m.(k := ResetUnblock(k))
    case TaskResume(t) => m.(k := Resume(k, t))
    case TaskDelete(t) => m.(k := Delete(k, t))
    case TaskPrioritySet(t, p) => m.(k := PrioritySet(k, t, p))
    case ContextSwitch => SwitchSelectsHighest(k); m.(k := SwitchContext(k))
    case Yield => m.(k := k.(switchAsked := true))
    case MissedYield => m.(k := k.(yieldPending := true))
    case IdleCleanUp => RankedCleanUp(k); m.(k := CleanUp(k))
  }

  // ---- every step keeps the invariant

  lemma CreateKept(m: Machine, t: Task, p: nat)
    requires Inv(m) && Enabled(m, TaskCreate(t, p))
    ensures Inv(Step(m, TaskCreate(t, p)))
  {
    RankedCreate(m.k, t, p);
    CountedCreate(m.k, t, p);
    CreateTime(m.k, t, p, m.now, m.due);
  }

  lemma StartKept(m: Machine, i: Task)
    requires Inv(m) && Enabled(m, StartScheduler(i))
    ensures Inv(Step(m, StartScheduler(i)))
  {
  }

  lemma BlockKept(m: Machine, ticks: Tick, indefinitely: bool)
    requires Inv(m) && Enabled(m, AddToDelayed(ticks, indefinitely))
    ensures Inv(Step(m, AddToDelayed(ticks, indefinitely)))
  {
    hide Block;
    BlockInv(m, ticks, indefinitely);
  }

  lemma BlockInv(m: Machine, ticks: Tick, indefinitely: bool)
    requires Inv(m) && m.k.running && CanBlock(m.k, ticks)
    ensures Inv(Waits(m, Block(m.k, ticks, indefinitely), ticks))
  {
    hide Block;
    BlockRankedCounted(m.k, ticks, indefinitely);
    BlockTime(m.k, m.now, m.due, ticks, indefinitely);
  }

  lemma BlockRankedCounted(k: Kernel, ticks: Tick, indefinitely: bool)
    requires Ranked(k) && Counted(k) && CanBlock(k, ticks)
    ensures var b := Block(k, ticks, indefinitely);
            Ranked(b) && Counted(b) && b.pended == k.pended && b.nesting == k.nesting && b.running == k.running
  {
    RankedBlock(k, ticks, indefinitely);
    CountedBlock(k, ticks, indefinitely);
  }

  // An event list other than the pending one changes.
  lemma EventsKept(m: Machine, ev: Shelf)
    requires Inv(m) && ev.Valid() && m.k.(ev := ev).Partitioned()
    requires m.k.nesting > 0
    ensures Inv(m.(k := m.k.(ev := ev)))
  {
    RankedEvents(m.k, m.k.(ev := ev));
  }

  lemma PlaceOnKept(m: Machine, q: nat, ticks: Tick)
    requires Inv(m) && Enabled(m, PlaceOnEventList(q, ticks))
    ensures Inv(Step(m, PlaceOnEventList(q, ticks)))
  {
    BlockKept(m, ticks, true);
    var b := Step(m, AddToDelayed(ticks, true));
    EventsKept(b, PlaceOn(m.k, q, ticks).ev);
  }

  lemma PlaceRestrictedKept(m: Machine, q: nat, ticks: Tick, indefinitely: bool)
    requires Inv(m) && Enabled(m, PlaceRestricted(q, ticks, indefinitely))
    ensures Inv(Step(m, PlaceRestricted(q, ticks, indefinitely)))
  {
    var wait := if indefinitely then MAX_DELAY else ticks;
    BlockKept(m, wait, indefinitely);
    var b := Step(m, AddToDelayed(wait, indefinitely));
    EventsKept(b, Scheduler.PlaceRestricted(m.k, q, ticks, indefinitely).ev);
  }

  lemma RemoveKept(m: Machine, q: nat)
    requires Inv(m) && Enabled(m, RemoveFromEventList(q))
    ensures Inv(Step(m, RemoveFromEventList(q)))
  {
    RankedWake(m.k, q);
    CountedWake(m.k, q);
    WakeTime(m.k, q, m.now, m.due);
    WakeFields(m.k, q);
  }

  lemma WakeFields(k: Kernel, q: nat)
    requires k.Partitioned() && PENDING < q < |k.ev.lists| && k.ev.Items(q) != []
    ensures var r := Wake(k, q); r.pended == k.pended && r.nesting == k.nesting && r.running == k.running
  {
  }

  lemma TickFields(k: Kernel)
    requires k.Partitioned()
    ensures var r := Scheduler.TickInterrupt(k);
            && r.nesting == k.nesting && r.running == k.running
            && r.pended == if k.nesting == 0 then k.pended else k.pended + 1
  {
    TickReadies(k);
    if k.nesting == 0 {
      TickPended(k);
    }
  }

  lemma TickTimeOk(k: Kernel, now: nat, due: map<Task, nat>)
    requires k.Partitioned() && TimeOk(k, now, due)
    ensures TimeOk(Scheduler.TickInterrupt(k), if k.nesting == 0 then now + 1 else now, due)
  {
    if k.nesting == 0 {
      var r := TickTime(k, now, due);
    }
  }

  lemma TickKept(m: Machine)
    requires Inv(m) && Enabled(m, TickInterrupt)
    ensures Inv(Step(m, TickInterrupt))
  {
    hide Kernel.Partitioned;
    hide TopOk;
    hide IdleReady;
    hide Preemptive;
    hide Counted;
    hide TimeOk;
    hide Scheduler.TickInterrupt;
    RankedTick(m.k);
    CountedTick(m.k);
    TickTimeOk(m.k, m.now, m.due);
    TickFields(m.k);
  }

  lemma Assembled(m: Machine, r: Kernel, now: nat)
    requires Inv(m) && Ranked(r) && Counted(r) && TimeOk(r, now, m.due) && m.k.running && r.running
    requires now + r.pended == m.now + m.k.pended && (r.nesting == 0 ==> r.pended == 0)
    ensures Inv(m.(k := r, now := now))
  {
  }

  lemma ResumeKept(m: Machine)
    requires Inv(m) && Enabled(m, ResumeAll)
    ensures Inv(Step(m, ResumeAll))
  {
    hide Scheduler.ResumeAll;
    ResumeInv(m);
  }

  lemma ResumeInv(m: Machine)
    requires Inv(m) && m.k.running && m.k.nesting > 0
    ensures Inv(m.(k := Scheduler.ResumeAll(m.k), now := if m.k.nesting == 1 then m.now + m.k.pended else m.now))
  {
    hide Scheduler.ResumeAll;
    RankedResumeAll(m.k);
    CountedResumeAll(m.k);
    ResumeTimeOk(m.k, m.now, m.due);
    ResumeFields(m.k);
    Assembled(m, Scheduler.ResumeAll(m.k), if m.k.nesting == 1 then m.now + m.k.pended else m.now);
  }

  lemma ResumeTimeOk(k: Kernel, now: nat, due: map<Task, nat>)
    requires k.Partitioned() && Counted(k) && TimeOk(k, now, due) && k.nesting > 0
    ensures TimeOk(Scheduler.ResumeAll(k), if k.nesting == 1 then now + k.pended else now, due)
  {
    if k.nesting == 1 {
      assert k.current in k.prio;
      ResumeTime(k, now, due);
    } else {
      NestedTime(k, now, due);
    }
  }

  lemma ResumeFields(k: Kernel)
    requires k.Partitioned() && Counted(k) && k.nesting > 0
    ensures var r := Scheduler.ResumeAll(k);
            && r.nesting == k.nesting - 1 && r.running == k.running
            && r.pended == if k.nesting == 1 then 0 else k.pended
  {
    assert k.current in k.prio;
    ResumeReadies(k);
  }

  lemma SuspendKept(m: Machine, t: Task)
    requires Inv(m) && Enabled(m, TaskSuspend(t))
    ensures Inv(Step(m, TaskSuspend(t)))
  {
    RankedSuspend(m.k, t);
    CountedSuspend(m.k, t);
    SuspendTime(m.k, t, m.now, m.due);
  }

  lemma ResetKept(m: Machine)
    requires Inv(m) && Enabled(m, ResetUnblockTime)
    ensures Inv(Step(m, ResetUnblockTime))
  {
    ResetFields(m.k);
    ResetOk(m.k, m.now, m.due);
    hide ResetUnblock;
  }

  lemma ResetFields(k: Kernel)
    requires k.Partitioned()
    ensures var r := ResetUnblock(k); r == k.(nextUnblock := r.nextUnblock)
  {
  }

  lemma ResumeTaskKept(m: Machine, t: Task)
    requires Inv(m) && Enabled(m, TaskResume(t))
    ensures Inv(Step(m, TaskResume(t)))
  {
    RankedResume(m.k, t);
    CountedResume(m.k, t);
    ResumeTaskTime(m.k, t, m.now, m.due);
  }

  lemma DeleteKept(m: Machine, t: Task)
    requires Inv(m) && Enabled(m, TaskDelete(t))
    ensures Inv(Step(m, TaskDelete(t)))
  {
    RankedDelete(m.k, t);
    CountedDelete(m.k, t);
    if t == m.k.current {
      DeleteSelfTime(m.k, m.now, m.due);
    } else {
      DeleteOtherTime(m.k, t, m.now, m.due);
    }
  }

  lemma PrioritySetKept(m: Machine, t: Task, p: nat)
    requires Inv(m) && Enabled(m, TaskPrioritySet(t, p))
    ensures Inv(Step(m, TaskPrioritySet(t, p)))
  {
    RankedPrioritySet(m.k, t, p);
    CountedPrioritySet(m.k, t, p);
    PrioritySetTime(m.k, t, p, m.now, m.due);
  }

  lemma SwitchKept(m: Machine)
    requires Inv(m) && Enabled(m, ContextSwitch)
    ensures Inv(Step(m, ContextSwitch))
  {
    SwitchSelectsHighest(m.k);
    SwitchTime(m.k, m.now, m.due);
  }

  lemma CleanUpKept(m: Machine)
    requires Inv(m) && Enabled(m, IdleCleanUp)
    ensures Inv(Step(m, IdleCleanUp))
  {
    RankedCleanUp(m.k);
    CountedCleanUp(m.k);
    CleanUpTime(m.k, m.now, m.due);
  }

  lemma SuspendAllKept(m: Machine)
    requires Inv(m) && Enabled(m, SuspendAll)
    ensures Inv(Step(m, SuspendAll))
  {
    hide Kernel.Partitioned;
    hide TopOk;
    hide IdleReady;
    hide Preemptive;
    hide Counted;
    hide TimeOk;
    DeeperRanked(m.k);
    DeeperCounted(m.k);
    DeeperTime(m.k, m.now, m.due);
    Assembled(m, m.k.(nesting := m.k.nesting + 1), m.now);
  }

  lemma DeeperRanked(k: Kernel)
    requires Ranked(k)
    ensures Ranked(k.(nesting := k.nesting + 1))
  {
  }

  lemma DeeperCounted(k: Kernel)
    requires k.Partitioned() && Counted(k)
    ensures var r := k.(nesting := k.nesting + 1); r.Partitioned() && Counted(r)
  {
  }

  lemma DeeperTime(k: Kernel, now: nat, due: map<Task, nat>)
    requires k.Partitioned() && TimeOk(k, now, due)
    ensures var r := k.(nesting := k.nesting + 1); r.Partitioned() && TimeOk(r, now, due)
  {
  }

  lemma YieldKept(m: Machine, r: Kernel)
    requires Inv(m) && m.k.running
    requires r == m.k.(switchAsked := true) || r == m.k.(yieldPending := true)
    ensures Inv(m.(k := r))
  {
    Assembled(m, r, m.now);
  }

  lemma YieldsKept(m: Machine, e: Event)
    requires Inv(m) && Enabled(m, e) && (e == Yield || e == MissedYield)
    ensures Inv(Step(m, e))
  {
    hide Inv;
    YieldKept(m, if e == Yield then m.k.(switchAsked := true) else m.k.(yieldPending := true));
  }

  lemma InvKept(m: Machine, e: Event)
    requires Inv(m) && Enabled(m, e)
    ensures Inv(Step(m, e))
  {
    hide *;
    match e
    case TaskCreate(t, p) => CreateKept(m, t, p);
    case StartScheduler(i) => StartKept(m, i);
    case AddToDelayed(ticks, indefinitely) => BlockKept(m, ticks, indefinitely);
    case PlaceOnEventList(q, ticks) => PlaceOnKept(m, q, ticks);
    case PlaceRestricted(q, ticks, indefinitely) => PlaceRestrictedKept(m, q, ticks, indefinitely);
    case RemoveFromEventList(q) => RemoveKept(m, q);
    case TickInterrupt => TickKept(m);
    case ResumeAll => ResumeKept(m);
    case TaskSuspend(t) => SuspendKept(m, t);
    case ResetUnblockTime => ResetKept(m);
    case TaskResume(t) => ResumeTaskKept(m, t);
    case TaskDelete(t) => DeleteKept(m, t);
    case TaskPrioritySet(t, p) => PrioritySetKept(m, t, p);
    case ContextSwitch => SwitchKept(m);
    case IdleCleanUp => CleanUpKept(m);
    case SuspendAll => SuspendAllKept(m);
    case Yield => YieldsKept(m, e);
    case MissedYield => YieldsKept(m, e);
  }

  // ---- whole runs

  // The first task has been created; the scheduler is not running yet.
  ghost predicate Fresh(m: Machine) {
    var k := m.k;
    && k.Partitioned() && |k.prio| == 1 && k.Ready(k.current) && k.numTasks == 1
    && k.st.Items(TERMINATED) == [] && k.deletedWaiting == 0
    && k.ev.home == map[] && !k.running && k.tick == 0 && k.overflows == 0 && k.nesting == 0 && k.pended == 0
    && !k.yieldPending && !k.switchAsked && k.topReady == k.prio[k.current]
    && m.now == 0 && m.interrupts == 0
  }

  lemma FreshInv(m: Machine)
    requires Fresh(m)
    ensures Inv(m)
  {
    var k := m.k;
    assert k.prio.Keys == {k.current} by {
      assert |k.prio.Keys - {k.current}| == 0;
    }
    assert k.st.home.Keys == {k.current};
    forall i | MAX_PRIORITIES <= i < STATE_LISTS ensures k.st.Items(i) == [] {
      NoItems(k.st, i);
    }
    NoItems(k.ev, PENDING);
  }

  lemma NoItems(s: Shelf, i: nat)
    requires s.Valid() && i < |s.lists| && forall t <- s.home :: s.home[t] != i
    ensures s.Items(i) == []
  {
    if s.Items(i) != [] {
      ItemHome(s, i, 0);
      assert false;
    }
  }

  lemma ItemHome(s: Shelf, i: nat, j: nat)
    requires s.Valid() && i < |s.lists| && j < |s.Items(i)|
    ensures s.Items(i)[j] in s.home && s.home[s.Items(i)[j]] == i
  {
    assert s.Items(i)[j] in s.lists[i].items;
  }

  // A run: every event can happen where it does.
  ghost predicate Possible(m: Machine, events: seq<Event>)
    decreases |events|
  {
    events == [] || (Inv(m) && Enabled(m, events[0]) && Possible(Step(m, events[0]), events[1..]))
  }

  ghost function After(m: Machine, events: seq<Event>): Machine
    requires Possible(m, events)
    decreases |events|
  {
    if events == [] then m else After(Step(m, events[0]), events[1..])
  }

  lemma {:induction false} InvAlways(m: Machine, events: seq<Event>)
    requires Inv(m) && Possible(m, events)
    ensures Inv(After(m, events))
    decreases |events|
  {
    hide Inv;
    hide Step;
    hide Enabled;
    if events != [] {
      InvKept(m, events[0]);
      InvAlways(Step(m, events[0]), events[1..]);
    }
  }

  // That a run's events find the invariant is no restriction: it is kept from the start.
  lemma NextPossible(m: Machine, events: seq<Event>, e: Event)
    requires Fresh(m) && Possible(m, events)
    ensures Inv(After(m, events))
    ensures Possible(m, events + [e]) <==> Enabled(After(m, events), e)
  {
    FreshInv(m);
    InvAlways(m, events);
    Extended(m, events, e);
  }

  lemma {:induction false} Extended(m: Machine, events: seq<Event>, e: Event)
    requires Inv(m) && Possible(m, events)
    ensures Possible(m, events + [e]) <==> Inv(After(m, events)) && Enabled(After(m, events), e)
    decreases |events|
  {
    hide Inv;
    hide Step;
    hide Enabled;
    if events == [] {
      assert events + [e] == [e] && [e][1..] == [];
    } else {
      assert (events + [e])[1..] == events[1..] + [e];
      InvKept(m, events[0]);
      Extended(Step(m, events[0]), events[1..], e);
    }
  }

  // Every live task is in exactly one state list, which for a ready task is that of its
  // priority; the counters agree with the lists; and the pending ready list is empty unless the
  // scheduler is suspended.
  lemma TasksConserved(m: Machine, events: seq<Event>)
    requires Fresh(m) && Possible(m, events)
    ensures var k := After(m, events).k;
            && k.Partitioned()
            && (forall t <- k.prio :: t in k.st.home && OnlyIn(k.st, t, k.st.home[t]))
            && (forall p, t :: 0 <= p < MAX_PRIORITIES && t in k.st.lists[p].items ==> t in k.prio && k.prio[t] == p)
            && k.numTasks == Total(k.st.lists) && k.deletedWaiting == |k.st.Items(TERMINATED)|
            && (k.nesting == 0 ==> k.ev.Items(PENDING) == [])
  {
    FreshInv(m);
    InvAlways(m, events);
    var r := After(m, events);
    hide After;
    hide Fresh;
    hide Possible;
    hide TopOk;
    hide IdleReady;
    hide Preemptive;
    hide TimeOk;
    hide Kernel.Partitioned;
    hide OnlyIn;
    TasksInOneList(r.k);
    TasksTotal(r.k);
  }

  lemma TasksInOneList(k: Kernel)
    requires k.Partitioned()
    ensures forall t <- k.prio :: t in k.st.home && OnlyIn(k.st, t, k.st.home[t])
    ensures |k.st.lists| == STATE_LISTS && |k.ev.lists| >= 1
    ensures forall p, t :: 0 <= p < MAX_PRIORITIES && t in k.st.lists[p].items ==> t in k.prio && k.prio[t] == p
  {
  }

  lemma TasksTotal(k: Kernel)
    requires k.Partitioned()
    ensures |k.prio| == Total(k.st.lists)
  {
    TotalIsHome(k.st);
    assert k.prio.Keys == k.st.home.Keys;
    assert |k.prio| == |k.prio.Keys| == |k.st.home.Keys| == |k.st.home|;
  }

  predicate OnlyIn(s: Shelf, t: Task, i: nat) {
    i < |s.lists| && forall j :: 0 <= j < |s.lists| ==> (t in s.lists[j].items <==> j == i)
  }

  // A preemption is never missed: a context switch has been requested, or no ready task outranks
  // the running one.
  lemma PreemptionNeverMissed(m: Machine, events: seq<Event>)
    requires Fresh(m) && Possible(m, events)
    ensures var k := After(m, events).k;
            k.switchAsked || k.yieldPending ||
            forall t <- k.st.home :: k.Ready(t) ==> t in k.prio && k.current in k.prio && k.prio[t] <= k.prio[k.current]
  {
    FreshInv(m);
    InvAlways(m, events);
  }

  // After a tick taken while the scheduler runs, and after the outermost resumption, that holds
  // without the pending-yield flag: the switch has been requested from the port itself.
  lemma PreemptionAskedAtOnce(m: Machine, events: seq<Event>, e: Event)
    requires Fresh(m) && Possible(m, events) && Inv(After(m, events)) && Enabled(After(m, events), e)
    requires Rescheduling(After(m, events).k, e)
    ensures AskedOrHighest(Step(After(m, events), e).k)
  {
    hide *;
    AsksAtOnce(After(m, events), e);
  }

  // The event is a tick outside any suspension, or ends the outermost one.
  predicate Rescheduling(k: Kernel, e: Event) {
    (e == TickInterrupt && k.nesting == 0) || (e == ResumeAll && k.nesting == 1)
  }

  lemma AsksAtOnce(m: Machine, e: Event)
    requires Inv(m) && Enabled(m, e) && Rescheduling(m.k, e)
    ensures AskedOrHighest(Step(m, e).k)
  {
    hide Scheduler.TickInterrupt;
    hide Scheduler.ResumeAll;
    hide Kernel.Partitioned;
    hide TimeOk;
    hide TopOk;
    hide IdleReady;
    hide Preemptive;
    hide Counted;
    hide AskedOrHighest;
    if e == TickInterrupt {
      TickAsksAtOnce(m.k);
    } else {
      ResumeAsksAtOnce(m.k);
    }
  }

  ghost predicate AskedOrHighest(k: Kernel) {
    k.switchAsked ||
    forall t <- k.st.home :: k.Ready(t) ==> t in k.prio && k.current in k.prio && k.prio[t] <= k.prio[k.current]
  }

  lemma AskedFromReadied(k: Kernel, r: Kernel, asked: bool)
    requires Ranked(k) && r.Partitioned() && Readied(k, r.(switchAsked := k.switchAsked), asked)
    requires asked || k.yieldPending || k.switchAsked ==> r.switchAsked
    ensures AskedOrHighest(r)
  {
  }

  lemma TickAsksAtOnce(k: Kernel)
    requires Ranked(k) && k.nesting == 0
    ensures AskedOrHighest(Scheduler.TickInterrupt(k))
  {
    TickReadies(k);
    AskedFromReadied(k, Scheduler.TickInterrupt(k), IncrementTick(k).switchRequired);
  }

  lemma ResumeAsksAtOnce(k: Kernel)
    requires Ranked(k) && Counted(k) && k.nesting == 1
    ensures AskedOrHighest(Scheduler.ResumeAll(k))
  {
    assert k.current in k.prio;
    ResumeReadies(k);
    AskedFromReadied(k, Scheduler.ResumeAll(k), Scheduler.ResumeAll(k).yieldPending);
  }

  // No tick is lost or counted twice: those processed and those pended are the interrupts.
  lemma TicksConserved(m: Machine, events: seq<Event>)
    requires Fresh(m) && Possible(m, events)
    ensures var r := After(m, events);
            && r.now + r.k.pended == r.interrupts
            && r.k.tick == TickOf(r.now) && r.k.overflows == Overflows(r.now)
            && (r.k.nesting == 0 ==> r.now == r.interrupts)
  {
    FreshInv(m);
    InvAlways(m, events);
  }

  // ---- where the claims stop

  // A task that deletes itself and is then suspended, or deleted by another, before the idle
  // task has cleaned up, leaves the clean-up count wrong.  The run exists: a task is created
  // above the idle task, the scheduler starts, the task deletes itself and is switched out.
  lemma StoppedTwice(m: Machine, t: Task)
    requires Fresh(m) && m.k.prio[m.k.current] == 0 && t !in m.k.prio
    ensures var events := [TaskCreate(t, 1), StartScheduler(m.k.current), TaskDelete(t), Yield, ContextSwitch];
            && Possible(m, events)
            && var k := After(m, events).k;
               && k.Partitioned() && t in k.prio && t != k.current
               && !Counted(Suspend(k, t)) && !Counted(Delete(k, t))
  {
    hide Inv;
    hide Step;
    hide Enabled;
    hide Fresh;
    hide Counted;
    hide Suspend;
    hide Delete;
    hide Kernel.Partitioned;
    FreshInv(m);
    var i := m.k.current;
    var rest3, rest2, rest1 := [ContextSwitch], [Yield, ContextSwitch], [TaskDelete(t), Yield, ContextSwitch];
    var rest0 := [StartScheduler(i), TaskDelete(t), Yield, ContextSwitch];
    var m1 := CreatedAbove(m, t);
    var m2 := Started(m1, i, t);
    var m3 := DeletedItself(m2, t);
    var m4 := Yielded(m3);
    var m5 := SwitchedOut(m4, t);
    RunStep(m4, ContextSwitch, []);
    assert rest3 == [ContextSwitch] + [];
    RunStep(m3, Yield, rest3);
    assert rest2 == [Yield] + rest3;
    RunStep(m2, TaskDelete(t), rest2);
    assert rest1 == [TaskDelete(t)] + rest2;
    RunStep(m1, StartScheduler(i), rest1);
    assert rest0 == [StartScheduler(i)] + rest1;
    RunStep(m, TaskCreate(t, 1), rest0);
    assert [TaskCreate(t, 1), StartScheduler(i), TaskDelete(t), Yield, ContextSwitch] == [TaskCreate(t, 1)] + rest0;
    BothMiscount(m5, t);
  }

  lemma RunStep(m: Machine, e: Event, rest: seq<Event>)
    requires Inv(m) && Enabled(m, e)
    ensures Possible(m, [e] + rest) == Possible(Step(m, e), rest)
    ensures Possible(Step(m, e), rest) ==> After(m, [e] + rest) == After(Step(m, e), rest)
  {
    assert ([e] + rest)[1..] == rest;
    hide Inv;
    hide Step;
    hide Enabled;
  }

  lemma CreatedAbove(m: Machine, t: Task) returns (n: Machine)
    requires Fresh(m) && Inv(m) && m.k.prio[m.k.current] == 0 && t !in m.k.prio
    ensures Enabled(m, TaskCreate(t, 1)) && n == Step(m, TaskCreate(t, 1)) && Inv(n)
    ensures var k := n.k;
            && !k.running && k.current == t && t in k.prio && m.k.current in k.st.home && k.st.home[m.k.current] == 0
            && t in k.st.home && k.st.home[t] == 1 && k.nesting == 0 && t != m.k.current
  {
    CreateKept(m, t, 1);
    n := Step(m, TaskCreate(t, 1));
  }

  lemma Started(m: Machine, i: Task, t: Task) returns (n: Machine)
    requires Inv(m) && !m.k.running && i in m.k.st.home && m.k.st.home[i] == 0 && m.k.current == t && m.k.nesting == 0
    requires t in m.k.st.home && m.k.st.home[t] == 1
    ensures Enabled(m, StartScheduler(i)) && n == Step(m, StartScheduler(i)) && Inv(n)
    ensures n.k == m.k.(running := true, idle := i, tick := 0, nextUnblock := MAX_DELAY)
  {
    StartKept(m, i);
    n := Step(m, StartScheduler(i));
  }

  lemma DeletedItself(m: Machine, t: Task) returns (n: Machine)
    requires Inv(m) && m.k.running && m.k.current == t && m.k.nesting == 0 && t != m.k.idle
    requires t in m.k.st.home && m.k.st.home[t] == 1
    ensures Enabled(m, TaskDelete(t)) && n == Step(m, TaskDelete(t)) && Inv(n)
    ensures var k := n.k; && k.running && k.nesting == 0 && t in k.prio && t in k.st.home && k.st.home[t] == TERMINATED
  {
    assert t in m.k.prio;
    DeleteKept(m, t);
    n := Step(m, TaskDelete(t));
    hide Shelf.Valid;
  }

  lemma Yielded(m: Machine) returns (n: Machine)
    requires Inv(m) && m.k.running
    ensures Enabled(m, Yield) && n == Step(m, Yield) && Inv(n) && n.k == m.k.(switchAsked := true)
  {
    YieldsKept(m, Yield);
    n := Step(m, Yield);
    hide Inv;
  }

  lemma SwitchedOut(m: Machine, t: Task) returns (n: Machine)
    requires Inv(m) && m.k.running && m.k.nesting == 0 && m.k.switchAsked
    requires t in m.k.prio && t in m.k.st.home && m.k.st.home[t] == TERMINATED
    ensures Enabled(m, ContextSwitch) && n == Step(m, ContextSwitch) && Inv(n)
    ensures t in n.k.prio && t in n.k.st.home && n.k.st.home[t] == TERMINATED && n.k.current != t
  {
    SwitchKept(m);
    SelectsHighest(m.k, m.k.idle);
    n := Step(m, ContextSwitch);
    hide SwitchContext;
  }

  lemma BothMiscount(m: Machine, t: Task)
    requires Inv(m) && t in m.k.prio && t in m.k.st.home && m.k.st.home[t] == TERMINATED && m.k.current != t
    ensures m.k.Partitioned() && !Counted(Suspend(m.k, t)) && !Counted(Delete(m.k, t))
  {
    CountedSuspend(m.k, t);
    CountedDelete(m.k, t);
    hide Suspend;
    hide Delete;
  }

  // ---- wrapped time refines unbounded time

  // t waits with a limit, is due at unbounded time d, and no event has woken it.
  ghost predicate StillWaits(m: Machine, t: Task, d: nat) {
    && t in m.k.st.home && Waiting(m.k, t) && !PendingReady(m.k, t)
    && t in m.due && m.due[t] == d && m.now < d
  }

  // The event does not end t's wait by itself.
  predicate Spares(k: Kernel, e: Event, t: Task)
    requires e.RemoveFromEventList? ==> e.list < |k.ev.lists| && k.ev.Items(e.list) != []
  {
    match e
    case RemoveFromEventList(q) => k.ev.Items(q)[0] != t
    case TaskSuspend(u) => u != t
    case TaskDelete(u) => u != t
    case _ => true
  }

  // A task that blocks at unbounded time T for d ticks, 1 <= d < 2^32 (and not indefinitely),
  // is due at T + d, wherever the tick count wraps on the way.
  lemma BlocksUntil(m: Machine, ticks: Tick)
    requires Inv(m) && Enabled(m, AddToDelayed(ticks, false)) && ticks >= 1
    ensures StillWaits(Step(m, AddToDelayed(ticks, false)), m.k.current, m.now + ticks)
  {
    BlockTime(m.k, m.now, m.due, ticks, false);
  }

  // So is one that waits for a queue with a limit, in priority order ...
  lemma WaitsForEventUntil(m: Machine, q: nat, ticks: Tick)
    requires Inv(m) && Enabled(m, PlaceOnEventList(q, ticks)) && 1 <= ticks < MAX_DELAY
    ensures StillWaits(Step(m, PlaceOnEventList(q, ticks)), m.k.current, m.now + ticks)
  {
    hide PlaceOn;
    hide Block;
    hide TimeOk;
    hide Kernel.Partitioned;
    hide TopOk;
    hide IdleReady;
    hide Preemptive;
    hide Counted;
    BlockTime(m.k, m.now, m.due, ticks, true);
    FreeOfEvents(m.k);
    PlaceOnParts(m.k, q, ticks);
  }

  // ... or at the end of the list.
  lemma WaitsRestrictedUntil(m: Machine, q: nat, ticks: Tick)
    requires Inv(m) && Enabled(m, PlaceRestricted(q, ticks, false)) && ticks >= 1
    ensures StillWaits(Step(m, PlaceRestricted(q, ticks, false)), m.k.current, m.now + ticks)
  {
    hide Scheduler.PlaceRestricted;
    hide Block;
    hide TimeOk;
    hide Kernel.Partitioned;
    hide TopOk;
    hide IdleReady;
    hide Preemptive;
    hide Counted;
    BlockTime(m.k, m.now, m.due, ticks, false);
    FreeOfEvents(m.k);
    RestrictedParts(m.k, q, ticks);
  }

  lemma PlaceOnParts(k: Kernel, q: nat, ticks: Tick)
    requires k.Partitioned() && k.Ready(k.current) && PENDING < q < |k.ev.lists|
    ensures var r := PlaceOn(k, q, ticks); r == Block(k, ticks, true).(ev := r.ev) && r.ev.home == k.ev.home[k.current := q]
  {
    hide Block;
  }

  lemma RestrictedParts(k: Kernel, q: nat, ticks: Tick)
    requires k.Partitioned() && k.Ready(k.current) && PENDING < q < |k.ev.lists|
    ensures var r := Scheduler.PlaceRestricted(k, q, ticks, false);
            r == Block(k, ticks, false).(ev := r.ev) && r.ev.home == k.ev.home[k.current := q]
  {
    hide Block;
  }

  lemma FreeOfEvents(k: Kernel)
    requires k.Partitioned() && k.Ready(k.current)
    ensures k.current !in k.ev.home
  {
  }

  ghost predicate WokenOnTime(m: Machine, e: Event, r: Machine, t: Task, d: nat) {
    if r.now < d then StillWaits(r, t, d)
    else (e == TickInterrupt || e == ResumeAll) && r.k.Ready(t) && (e == TickInterrupt ==> r.now == d)
  }

  lemma TickWakes(m: Machine, t: Task, d: nat)
    requires Inv(m) && Enabled(m, TickInterrupt) && StillWaits(m, t, d)
    ensures WokenOnTime(m, TickInterrupt, Step(m, TickInterrupt), t, d)
  {
    hide Scheduler.TickInterrupt;
    UnsuspendedTick(m.k, m.now, m.due, t);
    NestedTick(m.k);
  }

  lemma UnsuspendedTick(k: Kernel, now: nat, due: map<Task, nat>, t: Task)
    requires k.Partitioned() && TimeOk(k, now, due) && t in k.st.home && Waiting(k, t) && !PendingReady(k, t)
    ensures k.nesting == 0 ==>
              var r := Scheduler.TickInterrupt(k);
              && t in due && t in r.st.home && !PendingReady(r, t)
              && if due[t] <= now + 1 then r.Ready(t) else Waiting(r, t)
  {
    hide IncrementTick;
    if k.nesting == 0 {
      TickReadies(k);
      var r := TickTime(k, now, due);
      assert t in k.prio;
    }
  }

  lemma NestedTick(k: Kernel)
    requires k.Partitioned()
    ensures k.nesting != 0 ==> Scheduler.TickInterrupt(k) == k.(pended := k.pended + 1)
  {
  }

  lemma ResumeWakes(m: Machine, t: Task, d: nat)
    requires Inv(m) && Enabled(m, ResumeAll) && StillWaits(m, t, d)
    ensures WokenOnTime(m, ResumeAll, Step(m, ResumeAll), t, d)
  {
    hide Scheduler.ResumeAll;
    hide Kernel.Partitioned;
    hide Counted;
    hide TimeOk;
    if m.k.nesting == 1 {
      OutermostWakes(m.k, m.now, m.due, t);
    } else {
      NestedResume(m.k);
    }
  }

  lemma OutermostWakes(k: Kernel, now: nat, due: map<Task, nat>, t: Task)
    requires k.Partitioned() && Counted(k) && TimeOk(k, now, due) && k.nesting == 1
    requires t in k.st.home && Waiting(k, t) && !PendingReady(k, t) && t in due
    ensures var r := Scheduler.ResumeAll(k);
            && t in r.st.home && !PendingReady(r, t)
            && if due[t] <= now + k.pended then r.Ready(t) else Waiting(r, t)
  {
    NotPendingAfter(k, t);
    assert k.current in k.prio;
    ResumeTime(k, now, due);
    hide Scheduler.ResumeAll;
  }

  lemma NotPendingAfter(k: Kernel, t: Task)
    requires k.Partitioned() && Counted(k) && k.nesting > 0 && !PendingReady(k, t)
    ensures var r := Scheduler.ResumeAll(k);
            && !PendingReady(r, t) && r.nesting == k.nesting - 1 && r.delayed in {DELAYED_1, DELAYED_2} && r.prio == k.prio
  {
    assert k.current in k.prio;
    hide Scheduler.ResumeAll;
    ResumeReadies(k);
  }

  lemma NestedResume(k: Kernel)
    requires k.Partitioned() && k.nesting > 1
    ensures Scheduler.ResumeAll(k) == k.(nesting := k.nesting - 1)
  {
  }

  // t waits for nothing else in r than in k.
  ghost predicate SameWait(k: Kernel, r: Kernel, t: Task) {
    && t in k.st.home && t in r.st.home && r.st.home[t] == k.st.home[t]
    && (PendingReady(r, t) ==> PendingReady(k, t))
  }

  // The events that concern other tasks, or only the flags.
  lemma CreateSpares(k: Kernel, t: Task, u: Task, p: nat)
    requires k.Partitioned() && t in k.st.home && u !in k.prio
    ensures SameWait(k, Create(k, u, p), t)
  {
  }

  lemma SuspendSpares(k: Kernel, t: Task, u: Task)
    requires k.Partitioned() && t in k.st.home && u != t && u in k.prio
    ensures SameWait(k, Suspend(k, u), t)
  {
    hide Homes;
    hide Shelf.Valid;
    hide ToSuspended;
  }

  lemma DeleteSpares(k: Kernel, t: Task, u: Task)
    requires k.Partitioned() && t in k.st.home && u != t && u in k.prio
    ensures SameWait(k, Delete(k, u), t)
  {
    hide Homes;
    hide Shelf.Valid;
    hide Forget;
    hide MoveEnd;
  }

  lemma ResumeSpares(k: Kernel, t: Task, u: Task)
    requires k.Partitioned() && t in k.st.home && Waiting(k, t)
    ensures SameWait(k, Resume(k, u), t)
  {
    hide Homes;
    hide Shelf.Valid;
    hide MoveEnd;
  }

  lemma PrioritySetSpares(k: Kernel, t: Task, u: Task, p: nat)
    requires k.Partitioned() && t in k.st.home && Waiting(k, t) && u in k.prio
    ensures SameWait(k, PrioritySet(k, u, p), t)
  {
    RankChangeSpares(k, t, u, Clip(p));
    hide Reprioritise;
    hide Kernel.Partitioned;
  }

  lemma RankChangeSpares(k: Kernel, t: Task, u: Task, p: nat)
    requires k.Partitioned() && t in k.st.home && Waiting(k, t) && u in k.prio && p < MAX_PRIORITIES
    ensures SameWait(k, Reprioritise(k, u, p), t)
  {
    assert k.st.home[u] == k.prio[u] ==> u != t;
  }

  lemma OthersSpare(m: Machine, e: Event, t: Task, d: nat)
    requires Inv(m) && Enabled(m, e) && StillWaits(m, t, d) && Spares(m.k, e, t)
    requires e.TaskCreate? || e.TaskSuspend? || e.TaskResume? || e.TaskDelete? || e.TaskPrioritySet?
    ensures StillWaits(Step(m, e), t, d)
  {
    hide Create;
    hide Suspend;
    hide Delete;
    hide Resume;
    hide PrioritySet;
    match e
    case TaskCreate(u, p) => CreateSpares(m.k, t, u, p);
    case TaskSuspend(u) => SuspendSpares(m.k, t, u);
    case TaskDelete(u) => DeleteSpares(m.k, t, u);
    case TaskResume(u) => ResumeSpares(m.k, t, u);
    case TaskPrioritySet(u, p) => PrioritySetSpares(m.k, t, u, p);
  }

  lemma FlagsSpare(m: Machine, e: Event, t: Task, d: nat)
    requires Inv(m) && Enabled(m, e) && StillWaits(m, t, d)
    requires e.StartScheduler? || e.IdleCleanUp? || e.SuspendAll? || e.Yield? || e.MissedYield? || e.ResetUnblockTime?
    ensures StillWaits(Step(m, e), t, d)
  {
    if e.IdleCleanUp? {
      ItemHome(m.k.st, TERMINATED, 0);
    }
  }

  lemma BlockersSpare(m: Machine, e: Event, t: Task, d: nat)
    requires Inv(m) && Enabled(m, e) && StillWaits(m, t, d)
    requires e.AddToDelayed? || e.PlaceOnEventList? || e.PlaceRestricted?
    ensures StillWaits(Step(m, e), t, d)
  {
    hide Block;
    hide TimeOk;
    hide Counted;
    hide TopOk;
    hide IdleReady;
    hide Preemptive;
    hide Shelf.Valid;
  }

  lemma SwitchSpares(m: Machine, t: Task, d: nat)
    requires Inv(m) && Enabled(m, ContextSwitch) && StillWaits(m, t, d)
    ensures StillWaits(Step(m, ContextSwitch), t, d)
  {
  }

  lemma NotifySpares(k: Kernel, q: nat, t: Task)
    requires k.Partitioned() && PENDING < q < |k.ev.lists| && k.ev.Items(q) != [] && k.ev.Items(q)[0] != t
    requires t in k.st.home
    ensures SameWait(k, Wake(k, q), t)
  {
    var u := k.ev.Items(q)[0];
    ItemHome(k.ev, q, 0);
    EventTaskLives(k, u);
    hide Kernel.Partitioned;
    hide SameWait;
    hide Unblock;
    if k.nesting == 0 {
      UnblockSpares(k, u, t);
      SameLists(k, Unblock(k, u), Wake(k, q), t);
    } else {
      PendSpares(k, u, t, Wake(k, q));
    }
  }

  lemma EventTaskLives(k: Kernel, u: Task)
    requires k.Partitioned() && u in k.ev.home
    ensures u in k.st.home && u in k.prio && |k.ev.lists| >= 1
  {
  }

  lemma SameLists(k: Kernel, n: Kernel, r: Kernel, t: Task)
    requires SameWait(k, n, t) && r.st == n.st && r.ev == n.ev
    ensures SameWait(k, r, t)
  {
  }

  lemma UnblockSpares(k: Kernel, u: Task, t: Task)
    requires k.Partitioned() && u in k.st.home && t in k.st.home && t != u
    ensures SameWait(k, Unblock(k, u), t)
  {
    hide Kernel.Partitioned;
  }

  lemma PendSpares(k: Kernel, u: Task, t: Task, r: Kernel)
    requires k.Partitioned() && t in k.st.home && t != u
    requires r.st == k.st && OffEvents(k, u).ev.Has(PENDING) && r.ev == OffEvents(k, u).ev.PutEnd(PENDING, u)
    ensures SameWait(k, r, t)
  {
    hide Kernel.Partitioned;
  }

  lemma WakeSpares(m: Machine, q: nat, t: Task, d: nat)
    requires Inv(m) && Enabled(m, RemoveFromEventList(q)) && StillWaits(m, t, d) && m.k.ev.Items(q)[0] != t
    ensures StillWaits(Step(m, RemoveFromEventList(q)), t, d)
  {
    hide Wake;
    NotifySpares(m.k, q, t);
    RankedWake(m.k, q);
    WakeDelayed(m.k, q);
  }

  lemma WakeDelayed(k: Kernel, q: nat)
    requires k.Partitioned() && PENDING < q < |k.ev.lists| && k.ev.Items(q) != []
    ensures Wake(k, q).delayed == k.delayed
  {
  }

  lemma WaitStep(m: Machine, e: Event, t: Task, d: nat)
    requires Inv(m) && Enabled(m, e) && StillWaits(m, t, d) && Spares(m.k, e, t)
    ensures WokenOnTime(m, e, Step(m, e), t, d)
  {
    hide Step;
    hide Inv;
    match e
    case TickInterrupt => TickWakes(m, t, d);
    case ResumeAll => ResumeWakes(m, t, d);
    case RemoveFromEventList(q) => WakeSpares(m, q, t, d);
    case ContextSwitch => SwitchSpares(m, t, d);
    case AddToDelayed(_, _) => BlockersSpare(m, e, t, d);
    case PlaceOnEventList(_, _) => BlockersSpare(m, e, t, d);
    case PlaceRestricted(_, _, _) => BlockersSpare(m, e, t, d);
    case TaskCreate(_, _) => OthersSpare(m, e, t, d);
    case TaskSuspend(_) => OthersSpare(m, e, t, d);
    case TaskResume(_) => OthersSpare(m, e, t, d);
    case TaskDelete(_) => OthersSpare(m, e, t, d);
    case TaskPrioritySet(_, _) => OthersSpare(m, e, t, d);
    case _ => FlagsSpare(m, e, t, d);
  }

  // No event of the run ends t's wait before it is due.
  ghost predicate Undisturbed(m: Machine, events: seq<Event>, t: Task, d: nat)
    requires Possible(m, events)
    decreases |events|
  {
    events == [] || m.now >= d ||
    (Spares(m.k, events[0], t) && Undisturbed(Step(m, events[0]), events[1..], t, d))
  }

  // Over any run that does not otherwise end its wait, a task due at unbounded time d waits as
  // long as fewer than d ticks have been processed, and is ready right after the event that
  // processes tick d, which is a tick interrupt that brings the count to d exactly, or the
  // resumption that catches up on it.
  lemma {:induction false} WokenExactlyWhenDue(m: Machine, events: seq<Event>, t: Task, d: nat) returns (i: nat)
    requires Inv(m) && Possible(m, events) && StillWaits(m, t, d) && Undisturbed(m, events, t, d)
    ensures After(m, events).now < d ==> i == |events| && StillWaits(After(m, events), t, d)
    ensures After(m, events).now >= d ==>
              && i < |events| && Possible(m, events[..i]) && StillWaits(After(m, events[..i]), t, d)
              && Inv(After(m, events[..i])) && Enabled(After(m, events[..i]), events[i])
              && WokenOnTime(After(m, events[..i]), events[i], Step(After(m, events[..i]), events[i]), t, d)
              && Step(After(m, events[..i]), events[i]).now >= d
    decreases |events|
  {
    hide Inv;
    hide Step;
    hide Enabled;
    i := 0;
    if events != [] {
      var n, rest := Step(m, events[0]), events[1..];
      WaitStep(m, events[0], t, d);
      InvKept(m, events[0]);
      if n.now < d {
        i := WokenExactlyWhenDue(n, rest, t, d);
        if i < |rest| {
          assert events[..i + 1][1..] == rest[..i];
        }
        i := i + 1;
      } else {
        TimeAdvances(n, rest);
        assert events[..0] == [];
      }
    }
  }

  lemma {:induction false} TimeAdvances(m: Machine, events: seq<Event>)
    requires Inv(m) && Possible(m, events)
    ensures After(m, events).now >= m.now
    decreases |events|
  {
    hide Inv;
    hide Enabled;
    if events != [] {
      InvKept(m, events[0]);
      TimeAdvances(Step(m, events[0]), events[1..]);
    }
  }
}
