// What each region does and to which tasks, said of the lists as a whole: who has become ready,
// who has left an event list, and exactly when a switch is asked for.
module SchedulerEffects {

  import opened ListModel
  import opened Shelves
  import opened SortedLists
  import opened Ticks
  import opened Scheduler
  import opened SchedulerKept

  // The tasks that are ready in r and were not in k.
  function Newly(k: Kernel, r: Kernel): set<Task> {
    set t | t in k.st.home && !k.Ready(t) && r.Ready(t)
  }

  predicate SomeOutranks(k: Kernel, ts: set<Task>) {
    exists t :: t in ts && t in k.prio && k.Outranks(t)
  }

  // Exactly the tasks that have become ready have left their event lists.
  ghost predicate EventsFollow(k: Kernel, r: Kernel) {
    r.ev.home == map t | t in k.ev.home && !r.Ready(t) :: k.ev.home[t]
  }

  // ---- ticks

  lemma UnblockEffect(k: Kernel, t: Task)
    requires k.Partitioned() && t in k.st.home && !k.Ready(t)
    ensures var r := Unblock(k, t); Newly(k, r) == {t} && r.Ready(t) && EventsFollow(k, r)
    ensures t in k.prio && k.current in k.prio
    ensures var r := Unblock(k, t);
            && r.prio == k.prio && r.current == k.current && r.st.home.Keys == k.st.home.Keys
            && forall u :: k.Ready(u) ==> r.Ready(u)
  {
    assert t in k.prio;
    hide Unblock;
  }

  lemma EffectTrans(k: Kernel, n: Kernel, r: Kernel)
    requires n.st.home.Keys == k.st.home.Keys && EventsFollow(k, n) && EventsFollow(n, r)
    requires forall u :: n.Ready(u) ==> r.Ready(u)
    requires forall u :: k.Ready(u) ==> n.Ready(u)
    ensures EventsFollow(k, r) && Newly(k, r) == Newly(k, n) + Newly(n, r)
  {
  }

  lemma ReadyStays(k: Kernel, r: Kernel, asked: bool)
    requires k.current in k.prio && Readied(k, r, asked)
    ensures forall u :: k.Ready(u) ==> r.Ready(u)
  {
  }

  lemma {:induction false} ProcessEffect(k: Kernel, s: bool)
    requires k.Partitioned()
    ensures var r := ProcessDelayed(k, s);
            && (r.switchRequired <==> s || SomeOutranks(k, Newly(k, r.kernel)))
            && EventsFollow(k, r.kernel)
    decreases |k.st.Items(k.delayed)|
  {
    hide Unblock;
    hide Homes;
    hide Readied;
    var d := k.st.Items(k.delayed);
    if d != [] {
      DelayedHead(k);
    }
    if d != [] && k.tick >= k.wake[d[0]] {
      ProcessRound(k, s, d[0]);
    } else {
      Unchanged(k, ProcessDelayed(k, s).kernel);
    }
  }

  lemma Unchanged(k: Kernel, r: Kernel)
    requires k.Partitioned() && r.st.home == k.st.home && r.ev == k.ev
    ensures Newly(k, r) == {} && EventsFollow(k, r)
  {
  }

  lemma ProcessRound(k: Kernel, s: bool, t: Task)
    requires k.Partitioned() && k.st.Items(k.delayed) != [] && t == k.st.Items(k.delayed)[0]
    requires t in k.wake && k.tick >= k.wake[t] && t in k.st.home && t in k.prio && k.st.home[t] == k.delayed
    ensures var r := ProcessDelayed(k, s);
            && (r.switchRequired <==> s || SomeOutranks(k, Newly(k, r.kernel)))
            && EventsFollow(k, r.kernel)
    decreases |k.st.Items(k.delayed)|, 0
  {
    hide ProcessDelayed;
    hide Kernel.Partitioned;
    hide Readied;
    hide Unblock;
    hide Newly;
    hide SomeOutranks;
    hide EventsFollow;
    var n, a := ProcessOne(k, s);
    var r := ProcessDelayed(n, a);
    UnblockEffect(k, t);
    ProcessEffect(n, a);
    ProcessReadies(n, a);
    OneMoreRound(k, n, r.kernel, t, r.switchRequired);
  }

  lemma OneMoreRound(k: Kernel, n: Kernel, r: Kernel, t: Task, asked: bool)
    requires t in k.prio && k.current in k.prio && n.prio == k.prio && n.current == k.current
    requires Newly(k, n) == {t} && n.Ready(t) && n.st.home.Keys == k.st.home.Keys && EventsFollow(k, n) && EventsFollow(n, r)
    requires Readied(n, r, asked) && forall u :: k.Ready(u) ==> n.Ready(u)
    ensures EventsFollow(k, r)
    ensures SomeOutranks(k, Newly(k, r)) <==> k.Outranks(t) || SomeOutranks(n, Newly(n, r))
  {
    ReadyStays(n, r, asked);
    hide Readied;
    EffectTrans(k, n, r);
  }

  // The ready tasks of the running task's priority: itself, as a rule, and those it shares it with.
  function Mates(k: Kernel): set<Task>
    requires k.current in k.prio
  {
    set t | t in k.st.home && k.st.home[t] == k.prio[k.current]
  }

  lemma MatesListed(k: Kernel)
    requires k.Partitioned()
    ensures |k.st.Items(k.prio[k.current])| == |Mates(k)|
  {
    var p := k.prio[k.current];
    assert forall t :: t in k.st.lists[p].items <==> t in Mates(k);
    DistinctCount(k.st.Items(p), Mates(k));
  }

  lemma AdvanceEffect(k: Kernel) returns (a: Kernel)
    requires k.Partitioned()
    ensures a == Advance(k) && a.Partitioned() && a.st == k.st && a.ev == k.ev && a.prio == k.prio && a.current == k.current
    ensures a.yieldPending == k.yieldPending
  {
    a := Advance(k);
  }

  // xTaskIncrementTick asks for a switch exactly if a yield is pending, a task that outranks the
  // running one has become ready, or another task shares the running task's priority; never
  // while the scheduler is suspended.
  lemma TickAsksExactly(k: Kernel)
    requires k.Partitioned()
    ensures var r := IncrementTick(k);
            && r.kernel.current in r.kernel.prio && EventsFollow(k, r.kernel)
            && (r.switchRequired <==>
                  k.nesting == 0 && (k.yieldPending || SomeOutranks(k, Newly(k, r.kernel)) || |Mates(r.kernel)| > 1))
    ensures Scheduler.TickInterrupt(k).switchAsked <==> k.switchAsked || IncrementTick(k).switchRequired
    ensures PendedTick(k).yieldPending <==> k.yieldPending || IncrementTick(k).switchRequired
  {
    AskedFlags(k);
    if k.nesting == 0 {
      UnsuspendedAsks(k);
    } else {
      Unchanged(k, IncrementTick(k).kernel);
    }
  }

  lemma AskedFlags(k: Kernel)
    requires k.Partitioned()
    ensures Scheduler.TickInterrupt(k).switchAsked <==> k.switchAsked || IncrementTick(k).switchRequired
    ensures PendedTick(k).yieldPending <==> k.yieldPending || IncrementTick(k).switchRequired
  {
    hide IncrementTick;
    CurrentLives(k);
    TickReadies(k);
  }

  lemma UnsuspendedAsks(k: Kernel)
    requires k.Partitioned() && k.nesting == 0
    ensures var r := IncrementTick(k);
            && r.kernel.current in r.kernel.prio && EventsFollow(k, r.kernel)
            && (r.switchRequired <==> k.yieldPending || SomeOutranks(k, Newly(k, r.kernel)) || |Mates(r.kernel)| > 1)
  {
    hide Advance;
    hide ProcessDelayed;
    hide Kernel.Partitioned;
    hide Readied;
    hide Mates;
    TickReadies(k);
    var r := IncrementTick(k);
    var a := AdvanceEffect(k);
    if a.tick >= a.nextUnblock {
      ProcessEffect(a, false);
      Asked(k, a, r.kernel);
      ProcessFields(a, false);
    } else {
      Unchanged(k, r.kernel);
    }
    CurrentLives(r.kernel);
    MatesListed(r.kernel);
  }

  lemma ProcessFields(k: Kernel, s: bool)
    requires k.Partitioned()
    ensures var r := ProcessDelayed(k, s).kernel;
            r.current == k.current && r.prio == k.prio && r.yieldPending == k.yieldPending && k.current in k.prio
  {
    CurrentLives(k);
    ProcessReadies(k, s);
    hide ProcessDelayed;
  }

  lemma Asked(k: Kernel, a: Kernel, r: Kernel)
    requires a.st == k.st && a.ev == k.ev && a.prio == k.prio && a.current == k.current && EventsFollow(a, r)
    ensures EventsFollow(k, r) && (SomeOutranks(a, Newly(a, r)) <==> SomeOutranks(k, Newly(k, r)))
  {
    assert Newly(a, r) == Newly(k, r);
    assert forall t :: t in k.prio ==> (a.Outranks(t) <==> k.Outranks(t));
  }

  // ---- resuming

  // The tasks in the pending ready list.
  function Pending(k: Kernel): set<Task> { set t | t in k.ev.home && k.ev.home[t] == PENDING }

  lemma DrainRoundEffect(k: Kernel) returns (n: Kernel)
    requires k.Partitioned() && k.ev.Items(PENDING) != []
    ensures n.Partitioned() && |n.ev.Items(PENDING)| < |k.ev.Items(PENDING)| && Drain(k) == Drain(n)
    ensures k.ev.Items(PENDING)[0] in k.prio && Newly(k, n) == {k.ev.Items(PENDING)[0]} && EventsFollow(k, n)
    ensures n.yieldPending == (k.yieldPending || k.Outranks(k.ev.Items(PENDING)[0]))
    ensures n.prio == k.prio && n.current == k.current && n.st.home.Keys == k.st.home.Keys && k.current in k.prio
    ensures forall u :: k.Ready(u) ==> n.Ready(u)
  {
    hide Unblock;
    hide Homes;
    var t := k.ev.Items(PENDING)[0];
    PendingHead(k);
    UnblockEffect(k, t);
    var b := Unblock(k, t);
    n := b.(yieldPending := k.yieldPending || k.Outranks(t));
    assert Newly(k, n) == Newly(k, b);
  }

  // The first loop of xTaskResumeAll readies exactly the pending tasks, and wants a yield exactly
  // if one was wanted or one of them outranks the running task.
  lemma {:induction false} DrainEffect(k: Kernel)
    requires k.Partitioned()
    ensures var r := Drain(k);
            && Newly(k, r) == Pending(k) && EventsFollow(k, r)
            && (r.yieldPending <==> k.yieldPending || SomeOutranks(k, Newly(k, r)))
    decreases |k.ev.Items(PENDING)|
  {
    if k.ev.Items(PENDING) == [] {
      NonePending(k);
      Unchanged(k, k);
    } else {
      hide Drain;
      hide EventsFollow;
      hide SomeOutranks;
      hide Newly;
      hide Readied;
      var n := DrainRoundEffect(k);
      DrainEffect(n);
      DrainReadies(n);
      var r := Drain(n);
      OneMoreRound(k, n, r, k.ev.Items(PENDING)[0], r.yieldPending);
      DrainedThen(k, n, r, k.ev.Items(PENDING)[0], r.yieldPending);
    }
  }

  lemma DrainedThen(k: Kernel, n: Kernel, r: Kernel, t: Task, asked: bool)
    requires k.Partitioned() && n.Partitioned() && EventsFollow(k, n) && Newly(k, n) == {t} && Newly(n, r) == Pending(n)
    requires k.ev.Items(PENDING) != [] && t == k.ev.Items(PENDING)[0] && n.st.home.Keys == k.st.home.Keys
    requires Readied(n, r, asked) && EventsFollow(n, r) && forall u :: k.Ready(u) ==> n.Ready(u)
    ensures Newly(k, r) == Pending(k)
  {
    PendingHead(k);
    ReadyStays(n, r, asked);
    hide Readied;
    hide Homes;
    hide Shelf.Valid;
    EffectTrans(k, n, r);
    assert n.Ready(t) by {
      assert t in Newly(k, n);
    }
    forall u ensures u in Pending(k) <==> u == t || u in Pending(n) {
      if u in Pending(k) && u != t {
        NotReadyPending(k, u);
        assert u !in Newly(k, n);
      }
    }
  }

  lemma NotReadyPending(k: Kernel, u: Task)
    requires k.Partitioned() && u in k.ev.home
    ensures u in k.st.home && !k.Ready(u)
  {
  }

  lemma NonePending(k: Kernel)
    requires k.Partitioned() && k.ev.Items(PENDING) == []
    ensures forall t <- k.ev.home :: k.ev.home[t] != PENDING
  {
    forall t <- k.ev.home ensures k.ev.home[t] != PENDING {
      assert t in k.ev.lists[k.ev.home[t]].items;
    }
  }

  ghost predicate Follows(k: Kernel, r: Kernel) {
    && EventsFollow(k, r) && r.st.home.Keys == k.st.home.Keys && r.prio == k.prio && r.current == k.current
    && forall u :: k.Ready(u) ==> r.Ready(u)
  }

  lemma FollowsTrans(k: Kernel, n: Kernel, r: Kernel)
    requires Follows(k, n) && Follows(n, r)
    ensures Follows(k, r)
  {
  }

  lemma PendedTickFollows(k: Kernel)
    requires k.Partitioned()
    ensures Follows(k, PendedTick(k))
  {
    hide IncrementTick;
    CurrentLives(k);
    TickAsksExactly(k);
    TickReadies(k);
  }

  lemma {:induction false} CatchUpFollows(k: Kernel, n: nat)
    requires k.Partitioned()
    ensures Follows(k, CatchUp(k, n))
    decreases n
  {
    hide CatchUp;
    hide PendedTick;
    hide Kernel.Partitioned;
    CatchUpNext(k, if n > 0 then n - 1 else 0);
    if n == 0 {
      Unchanged(k, k);
    } else {
      hide Follows;
      CatchUpFollows(k, n - 1);
      PendedTickFollows(CatchUp(k, n - 1));
      FollowsTrans(k, CatchUp(k, n - 1), CatchUp(k, n));
    }
  }

  lemma CollectFollows(k: Kernel)
    requires k.Partitioned()
    ensures Follows(k, Collect(k)) && Newly(k, Collect(k)) == Pending(k) && Collect(k).pended == k.pended
    ensures Collect(k).switchAsked == k.switchAsked
    ensures Pending(k) != {} ==> Looked(Collect(k))
    ensures Collect(k).yieldPending <==> k.yieldPending || SomeOutranks(k, Pending(k))
  {
    CurrentLives(k);
    DrainEffect(k);
    DrainReadies(k);
    hide Drain;
    if k.ev.Items(PENDING) == [] {
      NonePending(k);
      Unchanged(k, k);
    } else {
      ResetFollows(k, Drain(k));
      LookedAgain(Drain(k));
      hide Looked;
    }
  }

  lemma ResetFollows(k: Kernel, d: Kernel)
    requires d.Partitioned() && EventsFollow(k, d)
    ensures EventsFollow(k, ResetUnblock(d)) && Newly(k, ResetUnblock(d)) == Newly(k, d)
  {
  }

  // The outermost resumption readies every pending task, and without pended ticks no other; it
  // takes those that have become ready off their event lists and nobody else; and it asks for a
  // switch if a pending task outranks the running one, which without pended ticks and a yield
  // wanted before is the only reason.
  lemma ResumeEffect(k: Kernel)
    requires k.Partitioned() && k.nesting == 1 && k.numTasks > 0
    ensures var r := Scheduler.ResumeAll(k);
            && EventsFollow(k, r) && Pending(k) <= Newly(k, r) && (k.pended == 0 ==> Newly(k, r) == Pending(k))
            && (k.yieldPending || SomeOutranks(k, Pending(k)) ==> r.switchAsked)
            && (k.pended == 0 && Pending(k) != {} ==> Looked(r))
            && (k.pended == 0 ==> (r.switchAsked <==> k.switchAsked || k.yieldPending || SomeOutranks(k, Pending(k))))
  {
    hide Collect;
    hide CatchUp;
    hide Kernel.Partitioned;
    hide EventsFollow;
    hide Follows;
    hide Newly;
    hide Pending;
    hide SomeOutranks;
    hide Looked;
    var d := k.(nesting := 0);
    SameButNesting(k, d);
    CollectFollows(d);
    var c, g := CaughtUp(d);
    ResumedIs(k, d, c, g, Scheduler.ResumeAll(k));
    LookedStill(c, Scheduler.ResumeAll(k));
  }

  lemma CaughtUp(d: Kernel) returns (c: Kernel, g: Kernel)
    requires d.Partitioned()
    ensures c == Collect(d) && g == CatchUp(c, c.pended) && Follows(c, g) && (c.pended == 0 ==> g == c)
    ensures c.yieldPending ==> g.yieldPending
  {
    hide Follows;
    hide Collect;
    hide CatchUp;
    hide Readied;
    c := Collect(d);
    g := CatchUp(c, c.pended);
    CatchUpFollows(c, c.pended);
    CatchUpNext(c, 0);
    CurrentLives(c);
    CatchUpReadies(c, c.pended);
  }

  lemma LookedStill(c: Kernel, r: Kernel)
    ensures r.st == c.st && r.wake == c.wake && r.delayed == c.delayed && r.nextUnblock == c.nextUnblock ==>
              (Looked(c) <==> Looked(r))
  {
  }

  lemma SameButNesting(k: Kernel, d: Kernel)
    requires k.Partitioned() && d == k.(nesting := d.nesting)
    ensures d.Partitioned() && Pending(d) == Pending(k)
    ensures SomeOutranks(d, Pending(d)) <==> SomeOutranks(k, Pending(k))
  {
    assert forall t :: t in k.prio ==> (d.Outranks(t) <==> k.Outranks(t));
  }

  lemma ResumedIs(k: Kernel, d: Kernel, c: Kernel, g: Kernel, r: Kernel)
    requires d == k.(nesting := 0) && Follows(d, c) && Follows(c, g) && Newly(d, c) == Pending(d)
    requires (c.pended == 0 ==> g == c) && r.st == g.st && r.ev == g.ev
    ensures EventsFollow(k, r) && Pending(k) <= Newly(k, r) && (c.pended == 0 ==> Newly(k, r) == Pending(k))
  {
    FollowsTrans(d, c, g);
    assert Newly(k, r) == Newly(d, g) && Pending(k) == Pending(d);
    assert forall t :: t in Newly(d, c) ==> t in Newly(d, g);
  }

  // ---- task management

  // vTaskSuspend: wherever it was, the task is then in the suspended list and waits for no event.
  lemma SuspendEffect(k: Kernel, t: Task)
    requires k.Partitioned() && t in k.prio
    ensures var r := Suspend(k, t);
            && r.st.home == k.st.home[t := SUSPENDED] && r.ev.home == k.ev.home - {t}
            && r == k.(st := r.st, ev := r.ev)
  {
  }

  // vTaskResume: exactly a suspended task that waits for no event becomes ready, and a switch is
  // asked for if it outranks the running task.
  lemma ResumeTaskEffect(k: Kernel, t: Task)
    requires k.Partitioned()
    ensures var r, wakes := Resume(k, t), t != k.current && t in k.st.home && k.st.home[t] == SUSPENDED && t !in k.ev.home;
            && Newly(k, r) == (if wakes then {t} else {}) && (wakes ==> t in k.prio && r.st.home == k.st.home[t := k.prio[t]])
            && (r.switchAsked <==> k.switchAsked || SomeOutranks(k, Newly(k, r)))
            && (!wakes ==> r == k) && r == k.(st := r.st, topReady := r.topReady, switchAsked := r.switchAsked)
  {
    hide Shelf.Valid;
  }

  // vTaskPrioritySet: the task has the new priority; if it was ready it is ready still, in the
  // list of that priority; nobody else moves.
  lemma PrioritySetEffect(k: Kernel, t: Task, newPriority: nat)
    requires k.Partitioned() && t in k.prio
    ensures var r, p := PrioritySet(k, t, newPriority), Clip(newPriority);
            && r.prio == k.prio[t := p] && t in k.st.home && r.ev == k.ev && r.current == k.current
            && r.st.home == (if k.Ready(t) then k.st.home[t := p] else k.st.home)
            && (r.switchAsked <==>
                  || k.switchAsked
                  || (t != k.current && k.prio[t] < p && k.prio[k.current] < p)
                  || (t == k.current && p < k.prio[t]))
  {
    RankHome(k, t);
    hide Kernel.Partitioned;
    hide Reprioritise;
    assert k.prio[t := k.prio[t]] == k.prio;
    assert k.st.home[t := k.st.home[t]] == k.st.home;
  }

  lemma RankHome(k: Kernel, t: Task)
    requires k.Partitioned() && t in k.prio
    ensures t in k.st.home && k.current in k.prio && k.prio[t] < MAX_PRIORITIES
    ensures k.Ready(t) <==> k.st.home[t] == k.prio[t]
  {
  }

  // The next unblock time is that of the head of the current list, or the largest tick.
  predicate Looked(k: Kernel) {
    k.delayed < |k.st.lists| &&
    var d := k.st.Items(k.delayed);
    if d == [] then k.nextUnblock == MAX_DELAY else d[0] in k.wake && k.nextUnblock == k.wake[d[0]]
  }

  lemma LookedAgain(k: Kernel)
    requires k.Partitioned()
    ensures Looked(ResetUnblock(k))
  {
    if k.st.Items(k.delayed) != [] {
      DelayedHead(k);
    }
  }

  // vTaskDelete: a task that deletes itself goes to the list of those to be cleaned up, and any
  // other is forgotten, and the next unblock time found anew; neither waits for an event any more.
  lemma DeleteEffect(k: Kernel, t: Task)
    requires k.Partitioned() && t in k.prio
    ensures var r := Delete(k, t);
            && r.ev.home == k.ev.home - {t} && r.current == k.current
            && (if t == k.current then r.st.home == k.st.home[t := TERMINATED] && r.prio == k.prio
                else r.st.home == k.st.home - {t} && r.prio == k.prio - {t} && Looked(r))
  {
    hide Shelf.Valid;
    if t != k.current {
      LookedAgain(Forget(OffEvents(k, t), t));
      hide Looked;
    }
  }

  // A new task is ready, with its priority cut down to the largest there is.
  lemma CreateEffect(k: Kernel, t: Task, p: nat)
    requires k.Partitioned() && t !in k.prio
    ensures var r := Create(k, t, p);
            && r.prio == k.prio[t := Clip(p)] && r.st.home == k.st.home[t := Clip(p)] && r.ev == k.ev && r.Ready(t)
            && k.current in k.prio
            && (if k.running then r.current == k.current && (r.switchAsked <==> k.switchAsked || k.prio[k.current] < Clip(p))
                else r.current == if k.prio[k.current] <= Clip(p) then t else k.current)
  {
    hide Shelf.Valid;
  }

  // ---- waiting

  // prvAddCurrentTaskToDelayedList: the running task leaves its ready list, for the suspended
  // list exactly if it waits without a limit, and nobody else moves.
  lemma BlockEffect(k: Kernel, ticks: Tick, indefinitely: bool)
    requires k.Partitioned() && k.Ready(k.current)
    ensures var r, t := Block(k, ticks, indefinitely), k.current;
            && t in r.st.home && r.st.home == k.st.home[t := r.st.home[t]] && r.ev == k.ev && r.prio == k.prio
            && (if ticks == MAX_DELAY && indefinitely then r.st.home[t] == SUSPENDED
                else r.st.home[t] in {DELAYED_1, DELAYED_2} && t in r.wake && r.wake[t] == Plus(k.tick, ticks))
  {
    hide Shelf.Valid;
    hide MoveAt;
    hide MoveEnd;
  }

  // vTaskPlaceOnEventList and its restricted form: besides, it has joined event list q.
  lemma PlaceEffect(k: Kernel, q: nat, ticks: Tick, indefinitely: bool)
    requires k.Partitioned() && k.Ready(k.current) && PENDING < q < |k.ev.lists|
    ensures var r, b := PlaceOn(k, q, ticks), Block(k, ticks, true);
            r.st == b.st && r.wake == b.wake && r.ev.home == k.ev.home[k.current := q]
    ensures var r := Scheduler.PlaceRestricted(k, q, ticks, indefinitely);
            var b := Block(k, if indefinitely then MAX_DELAY else ticks, indefinitely);
            r.st == b.st && r.wake == b.wake && r.ev.home == k.ev.home[k.current := q]
  {
    hide Block;
    hide Shelf.Valid;
  }

  // xTaskRemoveFromEventList: the head leaves the list, and is ready or, while the scheduler is
  // suspended, pending; a yield is wanted from then on exactly if it outranks the running task.
  lemma WakeEffect(k: Kernel, q: nat)
    requires k.Partitioned() && PENDING < q < |k.ev.lists| && k.ev.Items(q) != []
    ensures var r, t := Wake(k, q), k.ev.Items(q)[0];
            && t in k.prio
            && (if k.nesting == 0 then r.ev.home == k.ev.home - {t} && r.st.home == k.st.home[t := k.prio[t]]
                else r.ev.home == k.ev.home[t := PENDING] && r.st.home == k.st.home)
            && (r.yieldPending <==> k.yieldPending || k.Outranks(t)) && r.switchAsked == k.switchAsked
  {
    assert k.ev.Items(q)[0] in k.ev.lists[q].items;
    hide Shelf.Valid;
  }

  // ---- order within the lists

  // Whatever makes a task ready does so by an end insertion into the list of its priority, and
  // while the scheduler is suspended into the pending ready list.
  lemma JoinsAtEnd(k: Kernel, t: Task)
    requires k.Partitioned() && t in k.st.home && !k.Ready(t)
    ensures t in k.prio && k.st.lists[k.prio[t]].Valid()
    ensures Unblock(k, t).st.lists[k.prio[t]] == k.st.lists[k.prio[t]].InsertEnd(t)
    ensures t in k.ev.home && k.ev.home[t] != PENDING ==>
              k.ev.lists[PENDING].Valid() && ToPending(k, t).ev.lists[PENDING] == k.ev.lists[PENDING].InsertEnd(t)
  {
    assert t in k.prio;
  }

  // So do creation and a change of priority.
  lemma CreatedAtEnd(k: Kernel, t: Task, p: nat)
    requires k.Partitioned() && t !in k.prio
    ensures k.st.lists[Clip(p)].Valid() && Create(k, t, p).st.lists[Clip(p)] == k.st.lists[Clip(p)].InsertEnd(t)
  {
    hide Homes;
  }

  lemma MovedAtEnd(k: Kernel, t: Task, p: nat)
    requires k.Partitioned() && t in k.prio && k.Ready(t) && Clip(p) != k.prio[t]
    ensures k.st.lists[Clip(p)].Valid()
    ensures PrioritySet(k, t, p).st.lists[Clip(p)] == k.st.lists[Clip(p)].InsertEnd(t)
  {
    RankHome(k, t);
  }

  // A task that waits with a limit stands behind those due no later and before the others.
  predicate StandsAt(wake: map<Task, Tick>, s: seq<Task>, r: seq<Task>, at: nat, t: Task, until: Tick) {
    && at <= |s| && r == InsertAt(s, at, t)
    && (forall j :: 0 <= j < at ==> s[j] in wake && wake[s[j]] <= until)
    && (at < |s| ==> s[at] in wake && wake[s[at]] > until)
  }

  lemma ScanStands(wake: map<Task, Tick>, s: seq<Task>, t: Task, until: Tick)
    requires forall u <- s :: u in wake
    ensures var at := ScanPoint(Values(wake, s), until);
            at <= |s| && StandsAt(wake, s, InsertAt(s, at, t), at, t, until)
  {
    hide InsertAt;
    var keys := Values(wake, s);
    assert forall j :: 0 <= j < |s| ==> keys[j] == wake[s[j]];
  }

  lemma BlockedInOrder(k: Kernel, ticks: Tick, indefinitely: bool) returns (at: nat)
    requires k.Partitioned() && k.Ready(k.current) && !(ticks == MAX_DELAY && indefinitely)
    ensures var until, r := Plus(k.tick, ticks), Block(k, ticks, indefinitely);
            var i := if until < k.tick then k.Overflow() else k.delayed;
            && i < |k.st.lists| && i < |r.st.lists|
            && StandsAt(k.wake, k.st.Items(i), r.st.Items(i), at, k.current, until)
  {
    hide StandsAt;
    hide ScanPoint;
    hide InsertAt;
    hide MoveAt;
    hide Values;
    hide Homes;
    hide Shelf.Valid;
    var until := Plus(k.tick, ticks);
    var i := if until < k.tick then k.Overflow() else k.delayed;
    ItemsTimed(k, i);
    at := ScanPoint(Values(k.wake, k.st.Items(i)), until);
    ScanStands(k.wake, k.st.Items(i), k.current, until);
  }

  lemma ItemsTimed(k: Kernel, i: nat)
    requires k.Partitioned() && i < STATE_LISTS
    ensures forall u <- k.st.Items(i) :: u in k.wake
  {
    forall u <- k.st.Items(i) ensures u in k.wake {
      assert u in k.st.lists[i].items;
      assert u in k.prio;
    }
  }
}
