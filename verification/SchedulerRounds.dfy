// The tasks that share the highest ready priority take turns: whatever else happens meanwhile, as
// long as the list of that priority holds the same tasks and none of a higher one is ready, the
// switches select its tasks one after the other, each once a round.
module SchedulerRounds {

  import opened Division
  import opened ListModel
  import opened Shelves
  import opened Ticks
  import opened Scheduler
  import opened SchedulerKept
  import opened SchedulerMachine

  // The highest priority that has ready tasks is p, and they are s, in the order of its list.
  predicate Highest(k: Kernel, p: nat, s: seq<Task>) {
    && |k.st.lists| == STATE_LISTS && p < MAX_PRIORITIES && s != [] && k.st.Items(p) == s
    && forall i :: p < i < MAX_PRIORITIES ==> k.st.Items(i) == []
  }

  // ---- one switch

  lemma TopListIs(k: Kernel, p: nat, s: seq<Task>, top: nat)
    requires k.Partitioned() && Highest(k, p, s) && p <= top < MAX_PRIORITIES
    requires exists t :: t in k.st.home && k.st.home[t] <= top
    ensures TopList(k, top) == p
  {
    var q := TopList(k, top);
    assert k.st.Items(q) != [];
  }

  lemma TopBounds(k: Kernel, p: nat, s: seq<Task>)
    requires k.Partitioned() && TopOk(k) && Highest(k, p, s)
    ensures p <= k.topReady < MAX_PRIORITIES && s[0] in k.st.home && k.st.home[s[0]] == p && k.st.lists[p].Valid()
  {
    assert s[0] in k.st.lists[p].items;
  }

  // A switch moves the index of that list one item on, skipping the end marker, and selects the
  // item there: the first of the visiting order.  No other list changes.
  lemma SwitchTurns(k: Kernel, p: nat, s: seq<Task>)
    requires k.Partitioned() && TopOk(k) && k.nesting == 0 && Highest(k, p, s)
    ensures exists t :: t in k.st.home && k.st.home[t] <= k.topReady
    ensures k.st.lists[p].Valid() && |k.st.lists[p].Order()| == |s|
    ensures var r := SwitchContext(k);
            && r.current == k.st.lists[p].Order()[0] && r.topReady == p
            && Highest(r, p, s) && r.st.lists[p].Valid() && r.st.lists[p].Order() == Turned(k.st.lists[p].Order())
            && forall i :: 0 <= i < STATE_LISTS && i != p ==> r.st.lists[i] == k.st.lists[i]
  {
    hide TopList;
    hide Ring.Order;
    hide Ring.Advance;
    TopBounds(k, p, s);
    TopListIs(k, p, s, k.topReady);
    AdvanceTurns(k.st.lists[p]);
    var ring := k.st.lists[p].Advance();
    var r := SwitchContext(k);
    assert r.st.lists == k.st.lists[p := ring];
    assert forall i :: 0 <= i < STATE_LISTS && i != p ==> r.st.Items(i) == k.st.Items(i);
  }

  function Turned<T>(o: seq<T>): seq<T>
    requires o != []
  {
    o[1..] + [o[0]]
  }

  lemma AdvanceTurns<T>(r: Ring<T>)
    requires r.Valid() && r.items != []
    ensures |r.Order()| == |r.items|
    ensures r.Advance().Owner() == r.Order()[0] && r.Advance().Order() == Turned(r.Order())
  {
    var q := r.Advance();
    if r.at < |r.items| {
      assert r.items[r.at..] == [r.items[r.at]] + r.items[r.at + 1..];
      assert r.items[..r.at + 1] == r.items[..r.at] + [r.items[r.at]];
    } else {
      assert r.Order() == r.items && q.Order() == r.items[1..] + [r.items[0]];
    }
  }

  // ---- everything else leaves the list alone, or makes it longer or shorter

  // List p has got longer, or nothing has happened to it.
  predicate Grown(k: Kernel, r: Kernel, p: nat)
    requires p < |k.st.lists| && p < |r.st.lists|
  {
    |r.st.Items(p)| > |k.st.Items(p)| || r.st.lists[p] == k.st.lists[p]
  }

  lemma MoveGrown(k: Kernel, t: Task, i: nat, p: nat)
    requires k.Partitioned() && t in k.st.home && k.st.home[t] != p && i < STATE_LISTS && p < STATE_LISTS
    ensures var st := MoveEnd(k.st, t, i);
            |st.lists| == STATE_LISTS && (|st.Items(p)| > |k.st.Items(p)| || st.lists[p] == k.st.lists[p])
  {
    if i == p {
      TakeValid(k.st, t);
      assert k.st.Take(t).lists[p] == k.st.lists[p];
    }
  }

  lemma UnblockGrown(k: Kernel, t: Task, p: nat)
    requires k.Partitioned() && t in k.st.home && k.st.home[t] >= MAX_PRIORITIES && p < MAX_PRIORITIES
    ensures Grown(k, Unblock(k, t), p)
  {
    var o := OffEvents(k, t);
    MoveGrown(o, t, k.prio[t], p);
    hide MoveEnd;
    hide OffEvents;
  }

  lemma {:induction false} ProcessGrown(k: Kernel, s: bool, p: nat)
    requires k.Partitioned() && p < MAX_PRIORITIES
    ensures Grown(k, ProcessDelayed(k, s).kernel, p)
    decreases |k.st.Items(k.delayed)|
  {
    hide Unblock;
    hide Homes;
    var d := k.st.Items(k.delayed);
    if d != [] {
      DelayedHead(k);
    }
    if d != [] && k.tick >= k.wake[d[0]] {
      UnblockGrown(k, d[0], p);
      var n, a := ProcessOne(k, s);
      ProcessGrown(n, a, p);
    }
  }

  lemma TickGrown(k: Kernel, p: nat)
    requires k.Partitioned() && p < MAX_PRIORITIES
    ensures Grown(k, IncrementTick(k).kernel, p)
    ensures Grown(k, Scheduler.TickInterrupt(k), p) && Grown(k, PendedTick(k), p)
  {
    hide Homes;
    hide Shelf.Valid;
    if k.nesting == 0 {
      var a := Advance(k);
      if a.tick >= a.nextUnblock {
        ProcessGrown(a, false, p);
      }
    }
  }

  lemma DrainRound(k: Kernel, p: nat) returns (n: Kernel)
    requires k.Partitioned() && k.ev.Items(PENDING) != [] && p < MAX_PRIORITIES
    ensures n.Partitioned() && |n.ev.Items(PENDING)| < |k.ev.Items(PENDING)| && Grown(k, n, p) && Drain(k) == Drain(n)
  {
    hide Unblock;
    hide Homes;
    var t := k.ev.Items(PENDING)[0];
    PendingHead(k);
    UnblockGrown(k, t, p);
    n := Unblock(k, t).(yieldPending := k.yieldPending || k.Outranks(t));
  }

  lemma {:induction false} DrainGrown(k: Kernel, p: nat)
    requires k.Partitioned() && p < MAX_PRIORITIES
    ensures Grown(k, Drain(k), p)
    decreases |k.ev.Items(PENDING)|
  {
    if k.ev.Items(PENDING) != [] {
      var n := DrainRound(k, p);
      DrainGrown(n, p);
    }
  }

  lemma CollectGrown(k: Kernel, p: nat)
    requires k.Partitioned() && p < MAX_PRIORITIES
    ensures Grown(k, Collect(k), p)
  {
    DrainGrown(k, p);
    hide Drain;
  }

  lemma {:induction false} CatchUpGrown(k: Kernel, n: nat, p: nat)
    requires k.Partitioned() && p < MAX_PRIORITIES
    ensures Grown(k, CatchUp(k, n), p)
    decreases n
  {
    hide CatchUp;
    hide PendedTick;
    hide Kernel.Partitioned;
    CatchUpNext(k, if n > 0 then n - 1 else 0);
    ListsThere(k);
    if n > 0 {
      CatchUpGrown(k, n - 1, p);
      PendedGrown(k, CatchUp(k, n - 1), p);
    }
  }

  lemma PendedGrown(k: Kernel, c: Kernel, p: nat)
    requires k.Partitioned() && c.Partitioned() && p < MAX_PRIORITIES && Grown(k, c, p)
    ensures Grown(k, PendedTick(c), p)
  {
    hide PendedTick;
    hide Grown;
    hide Homes;
    hide Shelf.Valid;
    TickGrown(c, p);
    GrownTrans(k, c, PendedTick(c), p);
  }

  lemma ListsThere(k: Kernel)
    requires k.Partitioned()
    ensures |k.st.lists| == STATE_LISTS
  {
  }

  lemma GrownTrans(k: Kernel, c: Kernel, r: Kernel, p: nat)
    requires c.Partitioned() && r.Partitioned() && p < MAX_PRIORITIES && p < |k.st.lists|
    requires Grown(k, c, p) && Grown(c, r, p)
    ensures p < |r.st.lists| && Grown(k, r, p)
  {
  }

  lemma ResumeAllGrown(k: Kernel, p: nat)
    requires k.Partitioned() && k.nesting > 0 && p < MAX_PRIORITIES
    ensures Grown(k, Scheduler.ResumeAll(k), p)
  {
    hide CatchUp;
    hide Collect;
    hide Homes;
    hide Shelf.Valid;
    var d := k.(nesting := k.nesting - 1);
    if d.nesting == 0 && d.numTasks > 0 {
      CollectGrown(d, p);
      var c := Collect(d);
      CatchUpGrown(c, c.pended, p);
    }
  }

  lemma WakeGrown(k: Kernel, q: nat, p: nat)
    requires k.Partitioned() && PENDING < q < |k.ev.lists| && k.ev.Items(q) != [] && p < MAX_PRIORITIES
    ensures Grown(k, Wake(k, q), p)
  {
    var t := k.ev.Items(q)[0];
    assert t in k.ev.lists[q].items;
    if k.nesting == 0 {
      UnblockGrown(k, t, p);
    }
    hide Unblock;
  }

  // The same number of tasks in list p only if nothing has happened to it; and the same task runs.
  predicate LeavesAlone(k: Kernel, r: Kernel, p: nat)
    requires p < |k.st.lists|
  {
    && p < |r.st.lists| && r.current == k.current
    && (|r.st.Items(p)| == |k.st.Items(p)| ==> r.st.lists[p] == k.st.lists[p])
  }

  lemma MoveLeaves(s: Shelf, t: Task, i: nat, p: nat)
    requires s.Valid() && t in s.home && i < |s.lists| && p < |s.lists| && (s.home[t] == p ==> i != p)
    ensures var r := MoveEnd(s, t, i);
            |r.Items(p)| == |s.Items(p)| ==> r.lists[p] == s.lists[p]
  {
    TakeValid(s, t);
    if s.home[t] == p {
      assert t in s.lists[p].items;
    }
  }

  lemma TakeLeaves(s: Shelf, t: Task, p: nat)
    requires s.Valid() && t in s.home && p < |s.lists|
    ensures |s.Take(t).Items(p)| == |s.Items(p)| ==> s.Take(t).lists[p] == s.lists[p]
  {
    TakeValid(s, t);
    if s.home[t] == p {
      assert t in s.lists[p].items;
    }
  }

  lemma BlockLeaves(k: Kernel, ticks: Tick, indefinitely: bool, p: nat)
    requires k.Partitioned() && k.Ready(k.current) && p < MAX_PRIORITIES
    ensures LeavesAlone(k, Block(k, ticks, indefinitely), p)
  {
    MoveLeaves(k.st, k.current, SUSPENDED, p);
    TakeLeaves(k.st, k.current, p);
    hide ScanPoint;
    hide Homes;
  }

  lemma CreateLeaves(k: Kernel, t: Task, q: nat, p: nat)
    requires k.Partitioned() && t !in k.prio && k.running && p < MAX_PRIORITIES
    ensures LeavesAlone(k, Create(k, t, q), p)
  {
    hide Homes;
  }

  lemma SuspendLeaves(k: Kernel, t: Task, p: nat)
    requires k.Partitioned() && t in k.prio && p < MAX_PRIORITIES
    ensures LeavesAlone(k, Suspend(k, t), p)
  {
    MoveLeaves(k.st, t, SUSPENDED, p);
    hide MoveEnd;
  }

  lemma ResumeLeaves(k: Kernel, t: Task, p: nat)
    requires k.Partitioned() && p < MAX_PRIORITIES
    ensures LeavesAlone(k, Resume(k, t), p)
  {
    if t in k.st.home && k.st.home[t] == SUSPENDED && t !in k.ev.home {
      MoveLeaves(k.st, t, k.prio[t], p);
    }
    hide MoveEnd;
    hide Shelf.Valid;
  }

  lemma ForgetLeaves(k: Kernel, t: Task, p: nat)
    requires k.Partitioned() && t in k.prio && t != k.current && t !in k.ev.home && p < MAX_PRIORITIES
    ensures LeavesAlone(k, Forget(k, t), p)
  {
    TakeLeaves(k.st, t, p);
    hide Homes;
  }

  lemma DeleteLeaves(k: Kernel, t: Task, p: nat)
    requires k.Partitioned() && t in k.prio && p < MAX_PRIORITIES
    ensures LeavesAlone(k, Delete(k, t), p)
  {
    var o := OffEvents(k, t);
    if t == k.current {
      MoveLeaves(o.st, t, TERMINATED, p);
    } else {
      ForgetLeaves(o, t, p);
    }
    hide MoveEnd;
    hide Forget;
    hide OffEvents;
    hide Shelf.Valid;
  }

  lemma PrioritySetLeaves(k: Kernel, t: Task, q: nat, p: nat)
    requires k.Partitioned() && t in k.prio && p < MAX_PRIORITIES
    ensures LeavesAlone(k, PrioritySet(k, t, q), p)
  {
    if Clip(q) != k.prio[t] && k.st.home[t] == k.prio[t] {
      MoveLeaves(k.st, t, Clip(q), p);
    }
    hide MoveEnd;
    hide Shelf.Valid;
  }

  lemma CleanUpLeaves(k: Kernel, p: nat)
    requires k.Partitioned() && k.st.Items(TERMINATED) != [] && k.current !in k.st.Items(TERMINATED) && p < MAX_PRIORITIES
    ensures LeavesAlone(k, CleanUp(k), p)
  {
    var t := k.st.Items(TERMINATED)[0];
    assert t in k.st.lists[TERMINATED].items;
    ForgetLeaves(k, t, p);
    hide Forget;
  }

  // ---- every event

  lemma Known(m: Machine)
    requires Inv(m)
    ensures m.k.Partitioned() && TopOk(m.k) && Ranked(m.k) && |m.k.st.lists| == STATE_LISTS && m.k.current in m.k.prio
  {
  }

  lemma StepLeaves(m: Machine, e: Event, p: nat)
    requires Inv(m) && m.k.running && Enabled(m, e) && p < MAX_PRIORITIES && e != ContextSwitch && !e.StartScheduler?
    ensures p < |m.k.st.lists| && LeavesAlone(m.k, Step(m, e).k, p)
  {
    hide *;
    match e
    case TaskCreate(t, q) => TaskLeaves(m, e, t, q, p);
    case TaskSuspend(t) => TaskLeaves(m, e, t, 0, p);
    case TaskResume(t) => TaskLeaves(m, e, t, 0, p);
    case TaskDelete(t) => TaskLeaves(m, e, t, 0, p);
    case TaskPrioritySet(t, q) => TaskLeaves(m, e, t, q, p);
    case IdleCleanUp => IdleLeaves(m, p);
    case SuspendAll => QuietLeaves(m, e, p);
    case ResetUnblockTime => QuietLeaves(m, e, p);
    case Yield => QuietLeaves(m, e, p);
    case MissedYield => QuietLeaves(m, e, p);
    case AddToDelayed(_, _) => WaitLeaves(m, e, p);
    case PlaceOnEventList(_, _) => WaitLeaves(m, e, p);
    case PlaceRestricted(_, _, _) => WaitLeaves(m, e, p);
    case RemoveFromEventList(_) => WaitLeaves(m, e, p);
    case TickInterrupt => WaitLeaves(m, e, p);
    case ResumeAll => WaitLeaves(m, e, p);
  }

  lemma TaskLeaves(m: Machine, e: Event, t: Task, q: nat, p: nat)
    requires Inv(m) && m.k.running && Enabled(m, e) && p < MAX_PRIORITIES
    requires e in {TaskCreate(t, q), TaskSuspend(t), TaskResume(t), TaskDelete(t), TaskPrioritySet(t, q)}
    ensures p < |m.k.st.lists| && LeavesAlone(m.k, Step(m, e).k, p)
  {
    hide Inv;
    hide Kernel.Partitioned;
    hide LeavesAlone;
    hide Create;
    hide Suspend;
    hide Resume;
    hide Delete;
    hide PrioritySet;
    Known(m);
    match e
    case TaskCreate(_, _) => CreateLeaves(m.k, t, q, p);
    case TaskSuspend(_) => SuspendLeaves(m.k, t, p);
    case TaskResume(_) => ResumeLeaves(m.k, t, p);
    case TaskDelete(_) => DeleteLeaves(m.k, t, p);
    case TaskPrioritySet(_, _) => PrioritySetLeaves(m.k, t, q, p);
  }

  lemma IdleLeaves(m: Machine, p: nat)
    requires Inv(m) && m.k.running && Enabled(m, IdleCleanUp) && p < MAX_PRIORITIES
    ensures p < |m.k.st.lists| && LeavesAlone(m.k, Step(m, IdleCleanUp).k, p)
  {
    hide LeavesAlone;
    hide CleanUp;
    Known(m);
    RankedCleanUp(m.k);
    CleanUpLeaves(m.k, p);
  }

  lemma QuietLeaves(m: Machine, e: Event, p: nat)
    requires e in {SuspendAll, ResetUnblockTime, Yield, MissedYield}
    requires Inv(m) && m.k.running && Enabled(m, e) && p < MAX_PRIORITIES
    ensures p < |m.k.st.lists| && LeavesAlone(m.k, Step(m, e).k, p)
  {
  }

  lemma WaitLeaves(m: Machine, e: Event, p: nat)
    requires Inv(m) && m.k.running && Enabled(m, e) && p < MAX_PRIORITIES
    requires e.AddToDelayed? || e.PlaceOnEventList? || e.PlaceRestricted? || e.RemoveFromEventList? || e == TickInterrupt || e == ResumeAll
    ensures p < |m.k.st.lists| && LeavesAlone(m.k, Step(m, e).k, p)
  {
    hide Inv;
    hide Kernel.Partitioned;
    hide LeavesAlone;
    hide Block;
    hide PlaceOn;
    hide Scheduler.PlaceRestricted;
    hide Wake;
    hide Scheduler.TickInterrupt;
    hide Scheduler.ResumeAll;
    Known(m);
    match e
    case AddToDelayed(ticks, indefinitely) => BlockLeaves(m.k, ticks, indefinitely, p);
    case PlaceOnEventList(q, ticks) => PlacedLeaves(m.k, q, ticks, p);
    case PlaceRestricted(q, ticks, indefinitely) => RestrictedLeaves(m.k, q, ticks, indefinitely, p);
    case RemoveFromEventList(q) => WakeLeaves(m.k, q, p);
    case TickInterrupt => TickLeaves(m.k, p);
    case ResumeAll => ResumeAllLeaves(m, p);
  }

  lemma PlacedLeaves(k: Kernel, q: nat, ticks: Tick, p: nat)
    requires k.Partitioned() && k.Ready(k.current) && PENDING < q < |k.ev.lists| && p < MAX_PRIORITIES
    ensures LeavesAlone(k, PlaceOn(k, q, ticks), p)
  {
    hide Block;
    BlockLeaves(k, ticks, true, p);
  }

  lemma RestrictedLeaves(k: Kernel, q: nat, ticks: Tick, indefinitely: bool, p: nat)
    requires k.Partitioned() && k.Ready(k.current) && PENDING < q < |k.ev.lists| && p < MAX_PRIORITIES
    ensures LeavesAlone(k, Scheduler.PlaceRestricted(k, q, ticks, indefinitely), p)
  {
    hide Block;
    BlockLeaves(k, if indefinitely then MAX_DELAY else ticks, indefinitely, p);
  }

  lemma WakeLeaves(k: Kernel, q: nat, p: nat)
    requires k.Partitioned() && PENDING < q < |k.ev.lists| && k.ev.Items(q) != [] && p < MAX_PRIORITIES
    ensures LeavesAlone(k, Wake(k, q), p)
  {
    WakeGrown(k, q, p);
    var t := k.ev.Items(q)[0];
    assert t in k.ev.lists[q].items;
  }

  lemma TickLeaves(k: Kernel, p: nat)
    requires k.Partitioned() && p < MAX_PRIORITIES
    ensures LeavesAlone(k, Scheduler.TickInterrupt(k), p)
  {
    hide IncrementTick;
    assert k.current in k.prio;
    TickGrown(k, p);
    TickReadies(k);
  }

  lemma ResumeAllLeaves(m: Machine, p: nat)
    requires m.k.Partitioned() && m.k.nesting > 0 && p < MAX_PRIORITIES
    ensures LeavesAlone(m.k, Scheduler.ResumeAll(m.k), p)
  {
    hide Scheduler.ResumeAll;
    assert m.k.current in m.k.prio;
    ResumeAllGrown(m.k, p);
    ResumeReadies(m.k);
  }

  // ---- whole runs

  // All along the run the scheduler is running, and s are the ready tasks of the highest rank.
  ghost predicate Shared(m: Machine, events: seq<Event>, p: nat, s: seq<Task>)
    requires Possible(m, events)
    decreases |events|
  {
    m.k.running && Highest(m.k, p, s) && (events == [] || Shared(Step(m, events[0]), events[1..], p, s))
  }

  // The event selects a task: a switch that finds the scheduler suspended is only noted.
  predicate Selects(m: Machine, e: Event) { e == ContextSwitch && m.k.nesting == 0 }

  // The tasks selected in the run, one after the other.
  ghost function Picks(m: Machine, events: seq<Event>): seq<Task>
    requires Possible(m, events)
    decreases |events|
  {
    if events == [] then []
    else
      var n := Step(m, events[0]);
      (if Selects(m, events[0]) then [n.k.current] else []) + Picks(n, events[1..])
  }

  // One event: a selection takes the first of the visiting order and puts it last; anything else
  // leaves the order and the running task.
  lemma OneEvent(m: Machine, e: Event, p: nat, s: seq<Task>) returns (o: seq<Task>)
    requires Inv(m) && m.k.running && Enabled(m, e) && Highest(m.k, p, s) && Highest(Step(m, e).k, p, s)
    ensures m.k.st.lists[p].Valid() && Step(m, e).k.st.lists[p].Valid()
    ensures o == m.k.st.lists[p].Order() && |o| == |s|
    ensures var k, r := m.k, Step(m, e).k;
            if Selects(m, e) then r.current == o[0] && r.st.lists[p].Order() == Turned(o)
            else r.current == k.current && r.st.lists[p].Order() == o
  {
    hide Inv;
    hide SwitchContext;
    hide Turned;
    hide Kernel.Partitioned;
    Known(m);
    TopBounds(m.k, p, s);
    o := m.k.st.lists[p].Order();
    if Selects(m, e) {
      SwitchTurns(m.k, p, s);
    } else if e == ContextSwitch {
      NotedOnly(m);
    } else {
      StepLeaves(m, e, p);
    }
  }

  lemma NotedOnly(m: Machine)
    requires Inv(m) && m.k.running && m.k.nesting != 0 && Enabled(m, ContextSwitch)
    ensures Step(m, ContextSwitch).k.st == m.k.st && Step(m, ContextSwitch).k.current == m.k.current
  {
    SwitchSelectsHighest(m.k);
  }

  // Over any run in which the same tasks share the highest rank, the selections go round their
  // list in order.
  lemma {:induction false} TakeTurns(m: Machine, events: seq<Event>, p: nat, s: seq<Task>)
    requires Inv(m) && Possible(m, events) && Shared(m, events, p, s)
    ensures m.k.st.lists[p].Valid() && |m.k.st.lists[p].Order()| == |s|
    ensures forall i :: 0 <= i < |Picks(m, events)| ==> Picks(m, events)[i] == m.k.st.lists[p].Order()[i % |s|]
    decreases |events|
  {
    hide Inv;
    hide Step;
    hide Enabled;
    hide Highest;
    if events == [] {
      Known(m);
      SharedOrder(m, p, s);
    } else {
      var e, n := events[0], Step(m, events[0]);
      assert Highest(n.k, p, s);
      var o := OneEvent(m, e, p, s);
      InvKept(m, e);
      TakeTurns(n, events[1..], p, s);
      if Selects(m, e) {
        TurnedPicks(o, [n.k.current] + Picks(n, events[1..]), Picks(n, events[1..]));
      } else {
        assert Picks(m, events) == Picks(n, events[1..]);
      }
    }
  }

  lemma SharedOrder(m: Machine, p: nat, s: seq<Task>)
    requires Inv(m) && Highest(m.k, p, s)
    ensures m.k.st.lists[p].Valid() && |m.k.st.lists[p].Order()| == |s|
  {
  }

  lemma TurnedPicks(o: seq<Task>, picks: seq<Task>, rest: seq<Task>)
    requires o != [] && picks == [o[0]] + rest
    requires forall i :: 0 <= i < |rest| ==> rest[i] == Turned(o)[i % |o|]
    ensures forall i :: 0 <= i < |picks| ==> picks[i] == o[i % |o|]
  {
    forall i | 0 <= i < |picks| ensures picks[i] == o[i % |o|] {
      if i > 0 {
        assert picks[i] == rest[i - 1] == Turned(o)[(i - 1) % |o|];
        TurnedAt(o, i - 1);
      }
    }
  }

  lemma TurnedAt(o: seq<Task>, i: nat)
    requires o != []
    ensures Turned(o)[i % |o|] == o[(i + 1) % |o|]
  {
    NextPlace(i, |o|);
  }

  lemma NextPlace(i: nat, n: nat)
    requires n > 0
    ensures (i + 1) % n == if i % n == n - 1 then 0 else i % n + 1
  {
    var q, r := i / n, i % n;
    assert i == n * q + r;
    if r == n - 1 {
      assert i + 1 == n * (q + 1);
      QuotientIs(i + 1, n, q + 1, 0);
    } else {
      QuotientIs(i + 1, n, q, r + 1);
    }
  }

  // So in every round, of as many selections as there are tasks, each is selected exactly once.
  lemma EachOnceARound(m: Machine, events: seq<Event>, p: nat, s: seq<Task>, from: nat, t: Task)
    requires Inv(m) && Possible(m, events) && Shared(m, events, p, s)
    requires from + |s| <= |Picks(m, events)| && t in s
    ensures exists i :: from <= i < from + |s| && Picks(m, events)[i] == t
    ensures forall i, j :: from <= i < j < from + |s| ==> Picks(m, events)[i] != Picks(m, events)[j]
  {
    TakeTurns(m, events, p, s);
    OrderOf(m, p, s);
    hide Shared;
    hide Picks;
    hide Possible;
    hide Inv;
    var o, n, picks := m.k.st.lists[p].Order(), |s|, Picks(m, events);
    var at := IndexOf(o, t);
    var i := FirstAfter(from, n, at);
    assert picks[i] == t;
    forall i, j | from <= i < j < from + n ensures picks[i] != picks[j] {
      DifferentPlaces(i, j, n);
    }
  }

  lemma OrderOf(m: Machine, p: nat, s: seq<Task>)
    requires Inv(m) && Highest(m.k, p, s)
    ensures m.k.st.lists[p].Valid() && Distinct(m.k.st.lists[p].Order()) && |m.k.st.lists[p].Order()| == |s|
    ensures forall t :: t in m.k.st.lists[p].Order() <==> t in s
  {
    DistinctOrder(m.k.st.lists[p]);
    OrderPermutes(m.k.st.lists[p]);
  }

  lemma FirstAfter(from: nat, n: nat, at: nat) returns (i: nat)
    requires at < n
    ensures from <= i < from + n && i % n == at
  {
    var q, r := from / n, from % n;
    assert from == n * q + r;
    if r <= at {
      i := from + (at - r);
      QuotientIs(i, n, q, at);
    } else {
      i := from + n - r + at;
      assert i == n * (q + 1) + at;
      QuotientIs(i, n, q + 1, at);
    }
  }

  lemma DifferentPlaces(i: nat, j: nat, n: nat)
    requires i < j < i + n
    ensures i % n != j % n
  {
    var a, b := i / n, j / n;
    assert i == n * a + i % n && j == n * b + j % n;
    if a < b {
      Steps(n, a, b);
    } else if b < a {
      Steps(n, b, a);
    }
  }
}
