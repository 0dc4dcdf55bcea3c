// Ticks that arrive while the scheduler is suspended are only deferred: resuming it leaves what
// draining the pending tasks and then taking those ticks one by one, unsuspended, would leave.
module SchedulerTicks {

  import opened Shelves
  import opened Ticks
  import opened Scheduler
  import opened SchedulerKept

  function Flagged(k: Kernel, yieldPending: bool, switchAsked: bool, pended: nat): Kernel {
    k.(yieldPending := yieldPending, switchAsked := switchAsked, pended := pended)
  }

  // The same lists, tick count and times; the flags and the pended count may differ.
  predicate Alike(a: Kernel, b: Kernel) {
    a == Flagged(b, a.yieldPending, a.switchAsked, a.pended)
  }

  predicate SwitchWanted(k: Kernel) { k.yieldPending || k.switchAsked }

  lemma UnblockAlike(a: Kernel, b: Kernel, t: Task)
    requires a.Partitioned() && b.Partitioned() && Alike(a, b) && t in a.st.home
    ensures Alike(Unblock(a, t), Unblock(b, t))
    ensures Unblock(a, t).yieldPending == a.yieldPending && Unblock(a, t).switchAsked == a.switchAsked
    ensures Unblock(a, t).pended == a.pended
  {
    hide Homes;
    hide Shelf.Valid;
    hide MoveEnd;
  }

  ghost predicate AlikeTicked(a: Kernel, x: Ticked, y: Ticked) {
    && Alike(x.kernel, y.kernel) && x.switchRequired == y.switchRequired
    && x.kernel.yieldPending == a.yieldPending && x.kernel.switchAsked == a.switchAsked
    && x.kernel.pended == a.pended && x.kernel.nesting == a.nesting
  }

  lemma AlikeFrom(a: Kernel, u: Kernel, x: Ticked, y: Ticked)
    requires AlikeTicked(u, x, y) && u.yieldPending == a.yieldPending && u.switchAsked == a.switchAsked
    requires u.pended == a.pended && u.nesting == a.nesting
    ensures AlikeTicked(a, x, y)
  {
  }

  lemma ProcessStops(a: Kernel, b: Kernel, s: bool)
    requires a.Partitioned() && b.Partitioned() && Alike(a, b)
    requires var d := a.st.Items(a.delayed); d == [] || (d[0] in a.wake && a.tick < a.wake[d[0]])
    ensures AlikeTicked(a, ProcessDelayed(a, s), ProcessDelayed(b, s))
  {
  }

  lemma SameHead(a: Kernel, b: Kernel)
    requires Alike(a, b)
    ensures b.st == a.st && b.delayed == a.delayed && b.tick == a.tick && b.wake == a.wake
    ensures b.prio == a.prio && b.current == a.current
  {
  }

  lemma {:induction false} ProcessAlike(a: Kernel, b: Kernel, s: bool)
    requires a.Partitioned() && b.Partitioned() && Alike(a, b)
    ensures AlikeTicked(a, ProcessDelayed(a, s), ProcessDelayed(b, s))
    decreases |a.st.Items(a.delayed)|
  {
    hide Unblock;
    hide AlikeTicked;
    hide Alike;
    hide Homes;
    hide Shelf.Valid;
    SameHead(a, b);
    var d := a.st.Items(a.delayed);
    if d != [] {
      DelayedHead(a);
    }
    if d == [] || a.tick < a.wake[d[0]] {
      ProcessStops(a, b, s);
    } else {
      UnblockAlike(a, b, d[0]);
      var u, v := Unblock(a, d[0]), Unblock(b, d[0]);
      ProcessAlike(u, v, s || a.Outranks(d[0]));
      AlikeFrom(a, u, ProcessDelayed(a, s), ProcessDelayed(b, s));
    }
  }

  lemma AdvanceAlike(a: Kernel, b: Kernel)
    requires a.Partitioned() && b.Partitioned() && Alike(a, b)
    ensures var p, q := Advance(a), Advance(b);
            && Alike(p, q) && p.yieldPending == a.yieldPending && p.switchAsked == a.switchAsked
            && p.pended == a.pended && p.nesting == a.nesting
            && q.yieldPending == b.yieldPending && q.switchAsked == b.switchAsked && q.pended == b.pended
  {
    hide Homes;
    hide Shelf.Valid;
    hide SwitchLists;
    hide Plus;
    var next := Plus(a.tick, 1);
    SwitchAlike(a.(tick := next), b.(tick := next));
  }

  lemma SwitchAlike(a: Kernel, b: Kernel)
    requires a.Partitioned() && b.Partitioned() && Alike(a, b)
    ensures var p, q := SwitchLists(a), SwitchLists(b);
            && Alike(p, q) && p.yieldPending == a.yieldPending && p.switchAsked == a.switchAsked
            && p.pended == a.pended && p.nesting == a.nesting
            && q.yieldPending == b.yieldPending && q.switchAsked == b.switchAsked && q.pended == b.pended
  {
    hide Homes;
    hide Shelf.Valid;
    hide ResetUnblock;
    hide Plus;
    ResetAlike(a.(delayed := a.Overflow(), overflows := Plus(a.overflows, 1)),
               b.(delayed := b.Overflow(), overflows := Plus(b.overflows, 1)));
  }

  lemma ResetAlike(a: Kernel, b: Kernel)
    requires a.Partitioned() && b.Partitioned() && Alike(a, b)
    ensures ResetUnblock(a) == a.(nextUnblock := ResetUnblock(a).nextUnblock)
    ensures ResetUnblock(b) == b.(nextUnblock := ResetUnblock(a).nextUnblock)
  {
  }

  // What one tick does to lists and times does not depend on the flags.
  lemma TickAlike(a: Kernel, b: Kernel)
    requires a.Partitioned() && b.Partitioned() && Alike(a, b) && a.nesting == 0
    ensures var x, y := IncrementTick(a), IncrementTick(b);
            && Alike(x.kernel, y.kernel) && x.kernel.nesting == 0
            && x.kernel.yieldPending == a.yieldPending && x.kernel.switchAsked == a.switchAsked
            && x.kernel.pended == a.pended
            && y.kernel.yieldPending == b.yieldPending && y.kernel.switchAsked == b.switchAsked
            && y.kernel.pended == b.pended
            && (x.switchRequired || b.yieldPending <==> y.switchRequired || a.yieldPending)
  {
    hide ProcessDelayed;
    hide Advance;
    AdvanceAlike(a, b);
    var p, q := Advance(a), Advance(b);
    if p.tick >= p.nextUnblock {
      ProcessAlike(p, q, false);
      ProcessAlike(q, p, false);
      TickReadies(a);
    }
  }

  ghost predicate InStep(a: Kernel, b: Kernel) {
    Alike(a, b) && a.nesting == 0
    && (SwitchWanted(a) <==> SwitchWanted(b))
  }

  // A pended tick against an unsuspended one.
  lemma OneTickInStep(a: Kernel, b: Kernel)
    requires a.Partitioned() && b.Partitioned() && InStep(a, b)
    ensures InStep(PendedTick(a), TickInterrupt(b))
  {
    hide IncrementTick;
    TickAlike(a, b);
    TickPendingAsked(a);
    TickPendingAsked(b);
  }

  lemma TickPendingAsked(k: Kernel)
    requires k.Partitioned() && k.nesting == 0
    ensures k.yieldPending ==> IncrementTick(k).switchRequired
  {
    TickReadies(k);
  }

  ghost function TicksOneByOne(k: Kernel, n: nat): (r: Kernel)
    requires k.Partitioned()
    ensures r.Partitioned()
    decreases n
  {
    if n == 0 then k else TickInterrupt(TicksOneByOne(k, n - 1))
  }

  lemma TicksNext(k: Kernel, n: nat)
    requires k.Partitioned()
    ensures TicksOneByOne(k, 0) == k && TicksOneByOne(k, n + 1) == TickInterrupt(TicksOneByOne(k, n))
  {
    hide TickInterrupt;
    hide Kernel.Partitioned;
  }

  lemma {:induction false} TicksInStep(a: Kernel, b: Kernel, n: nat)
    requires a.Partitioned() && b.Partitioned() && InStep(a, b)
    ensures InStep(CatchUp(a, n), TicksOneByOne(b, n))
    decreases n
  {
    hide InStep;
    hide PendedTick;
    hide TickInterrupt;
    hide CatchUp;
    hide TicksOneByOne;
    hide Kernel.Partitioned;
    if n == 0 {
      CatchUpNext(a, 0);
      TicksNext(b, 0);
    } else {
      CatchUpNext(a, n - 1);
      TicksNext(b, n - 1);
      TicksInStep(a, b, n - 1);
      OneTickInStep(CatchUp(a, n - 1), TicksOneByOne(b, n - 1));
    }
  }

  // The outermost xTaskResumeAll: the same lists and the same tick count, and a context switch
  // asked for exactly if the ticks taken one by one would have.
  lemma ResumeIsTicksOneByOne(k: Kernel)
    requires k.Partitioned() && k.nesting == 1 && k.numTasks > 0
    ensures var c := Collect(k.(nesting := 0));
            var r, s := ResumeAll(k), TicksOneByOne(c.(pended := 0), k.pended);
            && r.st == s.st && r.ev == s.ev && r.tick == s.tick && r.delayed == s.delayed
            && r.nextUnblock == s.nextUnblock && r.topReady == s.topReady && r.wake == s.wake
            && r.pended == 0 && (SwitchWanted(r) <==> SwitchWanted(s))
  {
    hide Collect;
    hide CatchUp;
    var d := k.(nesting := 0);
    var c := CollectReadies(d);
    TicksInStep(c, c.(pended := 0), c.pended);
  }
}
