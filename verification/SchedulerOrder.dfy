// The event lists in priority order: exactly which events keep them so, and that a run of such
// events always wakes the waiting task that is outranked by no other in its list.
module SchedulerOrder {

  import opened ListModel
  import opened Shelves
  import opened Ticks
  import opened Scheduler
  import opened SchedulerKept
  import opened SchedulerMachine

  function Rank(prio: map<Task, nat>, t: Task): nat { if t in prio then prio[t] else 0 }

  predicate Descending(prio: map<Task, nat>, s: seq<Task>) {
    forall i, j :: 0 <= i <= j < |s| ==> Rank(prio, s[i]) >= Rank(prio, s[j])
  }

  // A task of priority p can stand between what comes before lo and what comes from hi on.
  predicate Between(prio: map<Task, nat>, s: seq<Task>, lo: nat, hi: nat, p: nat)
    requires lo <= |s|
  {
    (lo > 0 ==> Rank(prio, s[lo - 1]) >= p) && (hi < |s| ==> p >= Rank(prio, s[hi]))
  }

  lemma RemoveFits(prio: map<Task, nat>, s: seq<Task>, t: Task)
    requires Descending(prio, s)
    ensures Descending(prio, RemoveOne(s, t))
  {
    if t in s {
      RemoveOneIs(s, t);
    }
  }

  lemma InsertFits(prio: map<Task, nat>, s: seq<Task>, at: nat, t: Task)
    requires Descending(prio, s) && at <= |s|
    ensures Descending(prio, InsertAt(s, at, t)) <==> Between(prio, s, at, at, Rank(prio, t))
  {
    hide InsertAt;
    hide Rank;
    var r := InsertAt(s, at, t);
    InsertAtIs(s, at, t);
    if Between(prio, s, at, at, Rank(prio, t)) {
      InsertKeeps(prio, s, r, at, t);
    } else if at > 0 && Rank(prio, s[at - 1]) < Rank(prio, t) {
      assert Rank(prio, r[at - 1]) < Rank(prio, r[at]);
    } else {
      assert r[at + 1] == s[at];
      assert Rank(prio, r[at]) < Rank(prio, r[at + 1]);
    }
  }

  lemma InsertKeeps(prio: map<Task, nat>, s: seq<Task>, r: seq<Task>, at: nat, t: Task)
    requires Descending(prio, s) && at <= |s| && r == s[..at] + [t] + s[at..] && Between(prio, s, at, at, Rank(prio, t))
    ensures Descending(prio, r)
  {
    hide Rank;
    forall i, j | 0 <= i <= j < |r| ensures Rank(prio, r[i]) >= Rank(prio, r[j]) {
      assert r[i] == if i < at then s[i] else if i == at then t else s[i - 1];
      assert r[j] == if j < at then s[j] else if j == at then t else s[j - 1];
      if i < at {
        assert Rank(prio, s[i]) >= Rank(prio, s[at - 1]);
      }
      if j > at {
        assert Rank(prio, s[at]) >= Rank(prio, s[j - 1]);
      }
    }
  }

  lemma ChangeFits(prio: map<Task, nat>, s: seq<Task>, i: nat, p: nat)
    requires Descending(prio, s) && Distinct(s) && i < |s|
    ensures Descending(prio[s[i] := p], s) <==> Between(prio, s, i, i + 1, p)
  {
    var w := prio[s[i] := p];
    assert forall j :: 0 <= j < |s| ==> Rank(w, s[j]) == if j == i then p else Rank(prio, s[j]);
    if Between(prio, s, i, i + 1, p) {
      forall a, b | 0 <= a <= b < |s| ensures Rank(w, s[a]) >= Rank(w, s[b]) {
        if a < i {
          assert Rank(prio, s[a]) >= Rank(prio, s[i - 1]);
        }
        if b > i {
          assert Rank(prio, s[i + 1]) >= Rank(prio, s[b]);
        }
      }
    } else if i > 0 && Rank(prio, s[i - 1]) < p {
      assert Rank(w, s[i - 1]) < Rank(w, s[i]);
    } else {
      assert Rank(w, s[i]) < Rank(w, s[i + 1]);
    }
  }

  lemma Elsewhere(prio: map<Task, nat>, w: map<Task, nat>, s: seq<Task>, t: Task)
    requires t !in s && w - {t} == prio - {t}
    ensures Descending(w, s) <==> Descending(prio, s)
  {
    forall i | 0 <= i < |s| ensures Rank(w, s[i]) == Rank(prio, s[i]) {
      assert s[i] in w - {t} <==> s[i] in w;
      assert s[i] in prio - {t} <==> s[i] in prio;
      assert s[i] in w ==> w[s[i]] == (w - {t})[s[i]];
      assert s[i] in prio ==> prio[s[i]] == (prio - {t})[s[i]];
    }
  }

  // Every event list but the pending ready list is in priority order.
  ghost predicate EventsOrdered(k: Kernel) {
    forall q {:trigger k.ev.Items(q)} :: PENDING < q < |k.ev.lists| ==> Descending(k.prio, k.ev.Items(q))
  }

  // Nothing but list q changes.
  lemma OnlyList(k: Kernel, r: Kernel, q: nat)
    requires EventsOrdered(k) && r.prio == k.prio && |r.ev.lists| == |k.ev.lists| && PENDING < q < |k.ev.lists|
    requires forall i {:trigger r.ev.Items(i)} :: 0 <= i < |k.ev.lists| && i != q ==> r.ev.Items(i) == k.ev.Items(i)
    ensures EventsOrdered(r) <==> Descending(r.prio, r.ev.Items(q))
  {
    hide Descending;
  }

  lemma SameEvents(k: Kernel, r: Kernel)
    requires EventsOrdered(k) && r.prio == k.prio && r.ev == k.ev
    ensures EventsOrdered(r)
  {
    hide Descending;
  }

  // Only t's priority changes, and t waits nowhere.
  lemma OtherRanks(k: Kernel, r: Kernel, t: Task)
    requires k.Partitioned() && EventsOrdered(k) && r.ev == k.ev && r.prio - {t} == k.prio - {t} && t !in k.ev.home
    ensures EventsOrdered(r)
  {
    forall q {:trigger r.ev.Items(q)} | PENDING < q < |r.ev.lists| ensures Descending(r.prio, r.ev.Items(q)) {
      assert t !in k.ev.lists[q].items;
      Elsewhere(k.prio, r.prio, k.ev.Items(q), t);
    }
  }

  // ---- tasks leave event lists

  lemma OffOrder(k: Kernel, t: Task)
    requires k.Partitioned() && EventsOrdered(k)
    ensures EventsOrdered(OffEvents(k, t)) && OffEvents(k, t).prio == k.prio
  {
    var r := OffEvents(k, t);
    Thinned(k, r, t);
  }

  lemma Thinned(k: Kernel, r: Kernel, t: Task)
    requires EventsOrdered(k) && r.prio == k.prio && |r.ev.lists| == |k.ev.lists|
    requires forall i :: 0 <= i < |k.ev.lists| ==>
               r.ev.Items(i) ==
               if t in k.ev.home && i == k.ev.home[t] then RemoveOne(k.ev.Items(i), t) else k.ev.Items(i)
    ensures EventsOrdered(r)
  {
    hide Descending;
    forall q {:trigger r.ev.Items(q)} | PENDING < q < |r.ev.lists| ensures Descending(r.prio, r.ev.Items(q)) {
      assert Descending(k.prio, k.ev.Items(q));
      RemoveFits(k.prio, k.ev.Items(q), t);
    }
  }

  lemma UnblockOrder(k: Kernel, t: Task)
    requires k.Partitioned() && t in k.st.home && EventsOrdered(k)
    ensures EventsOrdered(Unblock(k, t)) && Unblock(k, t).prio == k.prio
  {
    hide EventsOrdered;
    var r := Unblock(k, t);
    Thinned(k, r, t);
  }

  lemma {:induction false} ProcessOrder(k: Kernel, s: bool)
    requires k.Partitioned() && EventsOrdered(k)
    ensures EventsOrdered(ProcessDelayed(k, s).kernel)
    decreases |k.st.Items(k.delayed)|
  {
    hide Unblock;
    hide Homes;
    var d := k.st.Items(k.delayed);
    if d != [] {
      DelayedHead(k);
    }
    if d == [] || k.tick < k.wake[d[0]] {
      SameEvents(k, ProcessDelayed(k, s).kernel);
    } else {
      UnblockOrder(k, d[0]);
      hide EventsOrdered;
      var n, a := ProcessOne(k, s);
      ProcessOrder(n, a);
    }
  }

  lemma TickOrder(k: Kernel)
    requires k.Partitioned() && EventsOrdered(k)
    ensures EventsOrdered(IncrementTick(k).kernel)
  {
    hide Descending;
    hide Homes;
    hide Shelf.Valid;
    if k.nesting == 0 {
      var a := Advance(k);
      SameEvents(k, a);
      if a.tick >= a.nextUnblock {
        ProcessOrder(a, false);
      }
    }
  }

  lemma TickInterruptOrder(k: Kernel)
    requires k.Partitioned() && EventsOrdered(k)
    ensures EventsOrdered(Scheduler.TickInterrupt(k)) && EventsOrdered(PendedTick(k))
  {
    TickOrder(k);
    SameEvents(IncrementTick(k).kernel, Scheduler.TickInterrupt(k));
    SameEvents(IncrementTick(k).kernel, PendedTick(k));
  }

  lemma DrainStep(k: Kernel) returns (n: Kernel)
    requires k.Partitioned() && EventsOrdered(k) && k.ev.Items(PENDING) != []
    ensures n.Partitioned() && |n.ev.Items(PENDING)| < |k.ev.Items(PENDING)| && EventsOrdered(n) && Drain(k) == Drain(n)
  {
    hide Unblock;
    hide Homes;
    hide Descending;
    var t := k.ev.Items(PENDING)[0];
    PendingHead(k);
    UnblockOrder(k, t);
    n := Unblock(k, t).(yieldPending := k.yieldPending || k.Outranks(t));
    SameEvents(Unblock(k, t), n);
  }

  lemma {:induction false} DrainOrder(k: Kernel)
    requires k.Partitioned() && EventsOrdered(k)
    ensures EventsOrdered(Drain(k))
    decreases |k.ev.Items(PENDING)|
  {
    if k.ev.Items(PENDING) != [] {
      hide EventsOrdered;
      var n := DrainStep(k);
      DrainOrder(n);
    }
  }

  lemma CollectOrder(k: Kernel)
    requires k.Partitioned() && EventsOrdered(k)
    ensures EventsOrdered(Collect(k))
  {
    DrainOrder(k);
    SameEvents(Drain(k), ResetUnblock(Drain(k)));
    hide Drain;
  }

  lemma {:induction false} CatchUpOrder(k: Kernel, n: nat)
    requires k.Partitioned() && EventsOrdered(k)
    ensures EventsOrdered(CatchUp(k, n))
    decreases n
  {
    hide CatchUp;
    hide PendedTick;
    hide EventsOrdered;
    CatchUpNext(k, if n > 0 then n - 1 else 0);
    if n > 0 {
      CatchUpOrder(k, n - 1);
      TickInterruptOrder(CatchUp(k, n - 1));
    }
  }

  lemma ResumeAllOrder(k: Kernel)
    requires k.Partitioned() && EventsOrdered(k) && k.nesting > 0
    ensures EventsOrdered(Scheduler.ResumeAll(k))
  {
    hide CatchUp;
    hide Collect;
    hide Descending;
    hide Homes;
    hide Shelf.Valid;
    var d := k.(nesting := k.nesting - 1);
    SameEvents(k, d);
    if d.nesting == 0 && d.numTasks > 0 {
      CollectOrder(d);
      var c := Collect(d);
      CatchUpOrder(c, c.pended);
      SameEvents(CatchUp(c, c.pended), Scheduler.ResumeAll(k));
    }
  }

  lemma WakeOrder(k: Kernel, q: nat)
    requires k.Partitioned() && EventsOrdered(k) && PENDING < q < |k.ev.lists| && k.ev.Items(q) != []
    ensures EventsOrdered(Wake(k, q))
  {
    hide Descending;
    hide Homes;
    var t := k.ev.Items(q)[0];
    assert t in k.ev.Items(q);
    if k.nesting == 0 {
      WokenListed(k, q);
      UnblockOrder(k, t);
      hide Shelf.Valid;
      SameEvents(Unblock(k, t), Wake(k, q));
    } else {
      WokenPending(k, q, t);
    }
  }

  lemma WokenListed(k: Kernel, q: nat)
    requires k.Partitioned() && PENDING < q < |k.ev.lists| && k.ev.Items(q) != []
    ensures var t := k.ev.Items(q)[0]; t in k.ev.home && k.ev.home[t] == q && t in k.st.home && t in k.prio
  {
    assert k.ev.Items(q)[0] in k.ev.lists[q].items;
  }

  lemma WokenPending(k: Kernel, q: nat, t: Task)
    requires k.Partitioned() && EventsOrdered(k) && PENDING < q < |k.ev.lists| && k.ev.Items(q) != []
    requires t == k.ev.Items(q)[0] && k.nesting > 0
    ensures EventsOrdered(Wake(k, q))
  {
    WokenListed(k, q);
    OffOrder(k, t);
    hide Descending;
    hide Homes;
    var o, r := OffEvents(k, t), Wake(k, q);
    PutEndValid(o.ev, PENDING, t);
    hide Shelf.Valid;
    assert forall i {:trigger r.ev.Items(i)} :: PENDING < i < |o.ev.lists| ==> r.ev.Items(i) == o.ev.Items(i);
  }

  // ---- tasks enter them

  lemma PlaceOnOrder(k: Kernel, q: nat, ticks: Tick)
    requires k.Partitioned() && EventsOrdered(k) && k.Ready(k.current) && PENDING < q < |k.ev.lists|
    ensures EventsOrdered(PlaceOn(k, q, ticks))
  {
    var t, s, r := k.current, k.ev.Items(q), PlaceOn(k, q, ticks);
    CurrentLives(k);
    ScanFits(k, s, t);
    hide Block;
    hide Homes;
    hide Shelf.Valid;
    var at := ScanPoint(EventKeys(k.prio, s), MAX_PRIORITIES - k.prio[t]);
    InsertedOrder(k, r, q, at, t);
  }

  // The scan of vListInsert on the item values stops where the task's priority fits.
  lemma ScanFits(k: Kernel, s: seq<Task>, t: Task)
    requires (forall u <- s :: u in k.prio && k.prio[u] < MAX_PRIORITIES) && t in k.prio && k.prio[t] < MAX_PRIORITIES
    ensures var at := ScanPoint(EventKeys(k.prio, s), MAX_PRIORITIES - k.prio[t]);
            at <= |s| && Between(k.prio, s, at, at, Rank(k.prio, t))
  {
    var keys := EventKeys(k.prio, s);
    var at := ScanPoint(keys, MAX_PRIORITIES - k.prio[t]);
    assert at > 0 ==> keys[at - 1] <= MAX_PRIORITIES - k.prio[t];
    assert at < |s| ==> keys[at] > MAX_PRIORITIES - k.prio[t];
  }

  // Where vListInsertEnd puts an item of this list: at the end, unless the list has been walked.
  function EndPlace(s: Shelf, q: nat): (at: nat)
    requires s.Has(q)
    ensures at <= |s.Items(q)|
  {
    if s.lists[q].at == 0 then |s.Items(q)| else s.lists[q].at - 1
  }

  lemma PlaceRestrictedOrder(k: Kernel, q: nat, ticks: Tick, indefinitely: bool)
    requires k.Partitioned() && EventsOrdered(k) && k.Ready(k.current) && PENDING < q < |k.ev.lists|
    ensures EventsOrdered(Scheduler.PlaceRestricted(k, q, ticks, indefinitely)) <==>
            var at := EndPlace(k.ev, q); Between(k.prio, k.ev.Items(q), at, at, Rank(k.prio, k.current))
  {
    hide Descending;
    hide EventsOrdered;
    hide Between;
    RestrictedIs(k, q, ticks, indefinitely);
    hide Kernel.Partitioned;
    hide Scheduler.PlaceRestricted;
    hide EndPlace;
    InsertedOrder(k, Scheduler.PlaceRestricted(k, q, ticks, indefinitely), q, EndPlace(k.ev, q), k.current);
  }

  lemma RestrictedIs(k: Kernel, q: nat, ticks: Tick, indefinitely: bool)
    requires k.Partitioned() && k.Ready(k.current) && PENDING < q < |k.ev.lists|
    ensures k.ev.Has(q)
    ensures var r := Scheduler.PlaceRestricted(k, q, ticks, indefinitely);
            && r.prio == k.prio && |r.ev.lists| == |k.ev.lists|
            && r.ev.Items(q) == InsertAt(k.ev.Items(q), EndPlace(k.ev, q), k.current)
            && forall i {:trigger r.ev.Items(i)} :: 0 <= i < |k.ev.lists| && i != q ==> r.ev.Items(i) == k.ev.Items(i)
  {
    CurrentFree(k);
    EndInserted(k.ev, q, k.current);
    hide EndPlace;
    hide Shelf.PutEnd;
    hide Shelf.Valid;
    hide Block;
    hide Homes;
  }

  lemma CurrentFree(k: Kernel)
    requires k.Partitioned() && k.Ready(k.current)
    ensures k.current !in k.ev.home && k.ev.Valid()
  {
  }

  lemma EndInserted(s: Shelf, q: nat, t: Task)
    requires s.Valid() && q < |s.lists| && t !in s.home
    ensures s.Has(q) && s.PutEnd(q, t).Items(q) == InsertAt(s.Items(q), EndPlace(s, q), t)
    ensures forall i {:trigger s.PutEnd(q, t).Items(i)} :: 0 <= i < |s.lists| && i != q ==>
              s.PutEnd(q, t).Items(i) == s.Items(i)
  {
    PutEndValid(s, q, t);
  }

  // A task is inserted at this place of list q.
  lemma InsertedOrder(k: Kernel, r: Kernel, q: nat, at: nat, t: Task)
    requires EventsOrdered(k) && r.prio == k.prio && PENDING < q < |r.ev.lists| == |k.ev.lists| && at <= |k.ev.Items(q)|
    requires r.ev.Items(q) == InsertAt(k.ev.Items(q), at, t)
    requires forall i {:trigger r.ev.Items(i)} :: 0 <= i < |k.ev.lists| && i != q ==> r.ev.Items(i) == k.ev.Items(i)
    ensures EventsOrdered(r) <==> Between(k.prio, k.ev.Items(q), at, at, Rank(k.prio, t))
  {
    hide Descending;
    assert Descending(k.prio, k.ev.Items(q));
    InsertFits(k.prio, k.ev.Items(q), at, t);
    OnlyList(k, r, q);
  }

  // ---- task management

  lemma CreateOrder(k: Kernel, t: Task, p: nat)
    requires k.Partitioned() && EventsOrdered(k) && t !in k.prio
    ensures EventsOrdered(Create(k, t, p))
  {
    hide Descending;
    OtherRanks(k, Create(k, t, p), t);
  }

  lemma SuspendOrder(k: Kernel, t: Task)
    requires k.Partitioned() && EventsOrdered(k) && t in k.prio
    ensures EventsOrdered(Suspend(k, t))
  {
    OffOrder(k, t);
    SameEvents(OffEvents(k, t), Suspend(k, t));
  }

  lemma ResumeOrder(k: Kernel, t: Task)
    requires k.Partitioned() && EventsOrdered(k)
    ensures EventsOrdered(Resume(k, t))
  {
    hide Descending;
    hide Homes;
    hide Shelf.Valid;
    SameEvents(k, Resume(k, t));
  }

  lemma DeleteOrder(k: Kernel, t: Task)
    requires k.Partitioned() && EventsOrdered(k) && t in k.prio
    ensures EventsOrdered(Delete(k, t))
  {
    OffOrder(k, t);
    hide Descending;
    hide Homes;
    hide Shelf.Valid;
    var o := OffEvents(k, t);
    if t == k.current {
      SameEvents(o, Delete(k, t));
    } else {
      OtherRanks(o, Forget(o, t), t);
      SameEvents(Forget(o, t), Delete(k, t));
    }
  }

  lemma CleanUpOrder(k: Kernel)
    requires k.Partitioned() && EventsOrdered(k) && k.st.Items(TERMINATED) != [] && k.current !in k.st.Items(TERMINATED)
    ensures EventsOrdered(CleanUp(k))
  {
    var t := k.st.Items(TERMINATED)[0];
    assert t in k.st.lists[TERMINATED].items;
    hide Descending;
    OtherRanks(k, CleanUp(k), t);
  }

  // The priority of a waiting task changes in place.
  predicate RankFits(k: Kernel, t: Task, p: nat) {
    t in k.ev.home && PENDING < k.ev.home[t] < |k.ev.lists| && t in k.ev.Items(k.ev.home[t]) ==>
      var s := k.ev.Items(k.ev.home[t]);
      var i := IndexOf(s, t);
      Between(k.prio, s, i, i + 1, p)
  }

  lemma PrioritySetOrder(k: Kernel, t: Task, p: nat)
    requires k.Partitioned() && EventsOrdered(k) && t in k.prio
    ensures EventsOrdered(PrioritySet(k, t, p)) <==> RankFits(k, t, Clip(p))
  {
    var r := PrioritySet(k, t, p);
    assert r.prio == k.prio[t := Clip(p)] && r.ev == k.ev;
    if t in k.ev.home && k.ev.home[t] > PENDING {
      RankChanged(k, r, t, Clip(p));
    } else {
      RankElsewhere(k, r, t, Clip(p));
    }
  }

  lemma RankElsewhere(k: Kernel, r: Kernel, t: Task, p: nat)
    requires k.Partitioned() && EventsOrdered(k) && r.prio == k.prio[t := p] && r.ev == k.ev
    requires t in k.ev.home ==> k.ev.home[t] == PENDING
    ensures EventsOrdered(r)
  {
    hide Descending;
    forall q {:trigger r.ev.Items(q)} | PENDING < q < |r.ev.lists| ensures Descending(r.prio, r.ev.Items(q)) {
      assert t !in k.ev.lists[q].items;
      assert Descending(k.prio, k.ev.Items(q));
      Elsewhere(k.prio, r.prio, k.ev.Items(q), t);
    }
  }

  lemma RankChanged(k: Kernel, r: Kernel, t: Task, p: nat)
    requires k.Partitioned() && EventsOrdered(k) && t in k.ev.home && k.ev.home[t] > PENDING
    requires r.prio == k.prio[t := p] && r.ev == k.ev
    ensures EventsOrdered(r) <==> RankFits(k, t, p)
  {
    var q := k.ev.home[t];
    assert t in k.ev.lists[q].items;
    var s := k.ev.Items(q);
    var i := IndexOf(s, t);
    assert Descending(k.prio, s);
    ChangeFits(k.prio, s, i, p);
    hide Descending;
    hide Between;
    forall j {:trigger r.ev.Items(j)} | PENDING < j < |r.ev.lists| && j != q ensures Descending(r.prio, r.ev.Items(j)) {
      assert t !in k.ev.lists[j].items;
      assert Descending(k.prio, k.ev.Items(j));
      Elsewhere(k.prio, r.prio, k.ev.Items(j), t);
    }
  }

  // ---- every event

  // The event leaves the lists in order: a task is put at the end of a list only where it
  // belongs there, and a waiting task gets only a priority that its place in the list allows.
  predicate Fits(k: Kernel, e: Event) {
    match e
    case PlaceRestricted(q, _, _) =>
      q < |k.ev.lists| && k.ev.Has(q) ==>
        var at := EndPlace(k.ev, q); Between(k.prio, k.ev.Items(q), at, at, Rank(k.prio, k.current))
    case TaskPrioritySet(t, p) => RankFits(k, t, Clip(p))
    case _ => true
  }

  lemma StepCreate(m: Machine, t: Task, p: nat)
    requires Inv(m) && Enabled(m, TaskCreate(t, p)) && EventsOrdered(m.k)
    ensures EventsOrdered(Step(m, TaskCreate(t, p)).k)
  {
    hide EventsOrdered;
    hide Create;
    CreateOrder(m.k, t, p);
  }

  lemma StepBlock(m: Machine, ticks: Tick, indefinitely: bool)
    requires Inv(m) && Enabled(m, AddToDelayed(ticks, indefinitely)) && EventsOrdered(m.k)
    ensures EventsOrdered(Step(m, AddToDelayed(ticks, indefinitely)).k)
  {
    hide EventsOrdered;
    hide Block;
    BlockEvents(m.k, ticks, indefinitely);
    SameEvents(m.k, Block(m.k, ticks, indefinitely));
  }

  lemma StepPlaceOn(m: Machine, q: nat, ticks: Tick)
    requires Inv(m) && Enabled(m, PlaceOnEventList(q, ticks)) && EventsOrdered(m.k)
    ensures EventsOrdered(Step(m, PlaceOnEventList(q, ticks)).k)
  {
    hide EventsOrdered;
    hide PlaceOn;
    PlaceOnOrder(m.k, q, ticks);
  }

  lemma StepRestricted(m: Machine, q: nat, ticks: Tick, indefinitely: bool)
    requires Inv(m) && Enabled(m, PlaceRestricted(q, ticks, indefinitely)) && EventsOrdered(m.k)
    ensures EventsOrdered(Step(m, PlaceRestricted(q, ticks, indefinitely)).k) <==> Fits(m.k, PlaceRestricted(q, ticks, indefinitely))
  {
    hide EventsOrdered;
    hide Scheduler.PlaceRestricted;
    hide Between;
    hide EndPlace;
    HasList(m.k, q);
    PlaceRestrictedOrder(m.k, q, ticks, indefinitely);
  }

  lemma StepWake(m: Machine, q: nat)
    requires Inv(m) && Enabled(m, RemoveFromEventList(q)) && EventsOrdered(m.k)
    ensures EventsOrdered(Step(m, RemoveFromEventList(q)).k)
  {
    hide EventsOrdered;
    hide Wake;
    WakeOrder(m.k, q);
  }

  lemma StepTick(m: Machine)
    requires Inv(m) && Enabled(m, TickInterrupt) && EventsOrdered(m.k)
    ensures EventsOrdered(Step(m, TickInterrupt).k)
  {
    hide EventsOrdered;
    hide Scheduler.TickInterrupt;
    hide PendedTick;
    TickInterruptOrder(m.k);
  }

  lemma StepResumeAll(m: Machine)
    requires Inv(m) && Enabled(m, ResumeAll) && EventsOrdered(m.k)
    ensures EventsOrdered(Step(m, ResumeAll).k)
  {
    hide EventsOrdered;
    hide Scheduler.ResumeAll;
    ResumeAllOrder(m.k);
  }

  lemma StepStop(m: Machine, t: Task, e: Event)
    requires e == TaskSuspend(t) || e == TaskDelete(t)
    requires Inv(m) && Enabled(m, e) && EventsOrdered(m.k)
    ensures EventsOrdered(Step(m, e).k)
  {
    hide EventsOrdered;
    hide Suspend;
    hide Delete;
    SuspendOrder(m.k, t);
    DeleteOrder(m.k, t);
  }

  lemma StepResume(m: Machine, t: Task)
    requires Inv(m) && Enabled(m, TaskResume(t)) && EventsOrdered(m.k)
    ensures EventsOrdered(Step(m, TaskResume(t)).k)
  {
    hide EventsOrdered;
    hide Resume;
    ResumeOrder(m.k, t);
  }

  lemma StepRank(m: Machine, t: Task, p: nat)
    requires Inv(m) && Enabled(m, TaskPrioritySet(t, p)) && EventsOrdered(m.k)
    ensures EventsOrdered(Step(m, TaskPrioritySet(t, p)).k) <==> Fits(m.k, TaskPrioritySet(t, p))
  {
    hide EventsOrdered;
    hide PrioritySet;
    hide RankFits;
    PrioritySetOrder(m.k, t, p);
  }

  lemma StepSwitch(m: Machine)
    requires Inv(m) && Enabled(m, ContextSwitch) && EventsOrdered(m.k)
    ensures EventsOrdered(Step(m, ContextSwitch).k)
  {
    hide EventsOrdered;
    SwitchSelectsHighest(m.k);
    SwitchEvents(m.k);
    hide SwitchContext;
    SameEvents(m.k, SwitchContext(m.k));
  }

  lemma StepCleanUp(m: Machine)
    requires Inv(m) && Enabled(m, IdleCleanUp) && EventsOrdered(m.k)
    ensures EventsOrdered(Step(m, IdleCleanUp).k)
  {
    hide EventsOrdered;
    hide CleanUp;
    RankedCleanUp(m.k);
    CleanUpOrder(m.k);
  }

  lemma StepSame(m: Machine, e: Event)
    requires e.StartScheduler? || e == SuspendAll || e == Yield || e == MissedYield || e == ResetUnblockTime
    requires Inv(m) && Enabled(m, e) && EventsOrdered(m.k)
    ensures EventsOrdered(Step(m, e).k)
  {
    hide EventsOrdered;
    SameEvents(m.k, Step(m, e).k);
  }

  lemma BlockEvents(k: Kernel, ticks: Tick, indefinitely: bool)
    requires k.Partitioned() && k.Ready(k.current)
    ensures var r := Block(k, ticks, indefinitely); r.ev == k.ev && r.prio == k.prio
  {
  }

  lemma HasList(k: Kernel, q: nat)
    requires k.Partitioned() && q < |k.ev.lists|
    ensures k.ev.Has(q)
  {
  }

  lemma SwitchEvents(k: Kernel)
    requires k.Partitioned()
    requires k.topReady < MAX_PRIORITIES && exists t :: t in k.st.home && k.st.home[t] <= k.topReady
    ensures var r := SwitchContext(k); r.ev == k.ev && r.prio == k.prio
  {
  }

  lemma AlwaysFits(k: Kernel, e: Event)
    requires !e.PlaceRestricted? && !e.TaskPrioritySet?
    ensures Fits(k, e)
  {
  }

  // Exactly the events that fit keep all lists in order.
  lemma StepOrder(m: Machine, e: Event)
    requires Inv(m) && Enabled(m, e) && EventsOrdered(m.k)
    ensures EventsOrdered(Step(m, e).k) <==> Fits(m.k, e)
  {
    hide *;
    if !e.PlaceRestricted? && !e.TaskPrioritySet? {
      AlwaysFits(m.k, e);
    }
    match e
    case TaskCreate(t, p) => StepCreate(m, t, p);
    case StartScheduler(i) => StepSame(m, e);
    case AddToDelayed(ticks, indefinitely) => StepBlock(m, ticks, indefinitely);
    case PlaceOnEventList(q, ticks) => StepPlaceOn(m, q, ticks);
    case PlaceRestricted(q, ticks, indefinitely) => StepRestricted(m, q, ticks, indefinitely);
    case RemoveFromEventList(q) => StepWake(m, q);
    case TickInterrupt => StepTick(m);
    case ResumeAll => StepResumeAll(m);
    case TaskSuspend(t) => StepStop(m, t, e);
    case ResetUnblockTime => StepSame(m, e);
    case TaskResume(t) => StepResume(m, t);
    case TaskDelete(t) => StepStop(m, t, e);
    case TaskPrioritySet(t, p) => StepRank(m, t, p);
    case ContextSwitch => StepSwitch(m);
    case IdleCleanUp => StepCleanUp(m);
    case SuspendAll => StepSame(m, e);
    case Yield => StepSame(m, e);
    case MissedYield => StepSame(m, e);
  }

  // ---- whole runs

  // Every event of the run fits where it happens.
  ghost predicate Orderly(m: Machine, events: seq<Event>)
    requires Possible(m, events)
    decreases |events|
  {
    events == [] || (Fits(m.k, events[0]) && Orderly(Step(m, events[0]), events[1..]))
  }

  lemma {:induction false} OrderedAlways(m: Machine, events: seq<Event>)
    requires Inv(m) && EventsOrdered(m.k) && Possible(m, events) && Orderly(m, events)
    ensures EventsOrdered(After(m, events).k)
    decreases |events|
  {
    hide Inv;
    hide Step;
    hide Enabled;
    hide Fits;
    hide EventsOrdered;
    if events != [] {
      InvKept(m, events[0]);
      StepOrder(m, events[0]);
      OrderedAlways(Step(m, events[0]), events[1..]);
    }
  }

  ghost predicate OrderedThroughout(m: Machine, events: seq<Event>)
    requires Possible(m, events)
    decreases |events|
  {
    EventsOrdered(m.k) && (events == [] || OrderedThroughout(Step(m, events[0]), events[1..]))
  }

  // The lists are in order all along a run exactly if each of its events fits.
  lemma OrderedExactly(m: Machine, events: seq<Event>)
    requires Fresh(m) && Possible(m, events)
    ensures OrderedThroughout(m, events) <==> Orderly(m, events)
  {
    FreshInv(m);
    FreshOrdered(m);
    OrderedJustIf(m, events);
  }

  lemma {:induction false} OrderedJustIf(m: Machine, events: seq<Event>)
    requires Inv(m) && EventsOrdered(m.k) && Possible(m, events)
    ensures OrderedThroughout(m, events) <==> Orderly(m, events)
    decreases |events|
  {
    hide Inv;
    hide Step;
    hide Enabled;
    hide Fits;
    hide EventsOrdered;
    if events != [] {
      InvKept(m, events[0]);
      StepOrder(m, events[0]);
      if EventsOrdered(Step(m, events[0]).k) {
        OrderedJustIf(Step(m, events[0]), events[1..]);
      }
    }
  }

  lemma FreshOrdered(m: Machine)
    requires Fresh(m)
    ensures EventsOrdered(m.k)
  {
    forall q {:trigger m.k.ev.Items(q)} | PENDING < q < |m.k.ev.lists| ensures m.k.ev.Items(q) == [] {
      NoItems(m.k.ev, q);
    }
  }

  // After any run whose events fit, an event readies the task that no other in its list
  // outranks, or keeps it for when the scheduler resumes.
  lemma HighestWoken(m: Machine, events: seq<Event>, q: nat)
    requires Fresh(m) && Possible(m, events) && Orderly(m, events)
    requires Enabled(After(m, events), RemoveFromEventList(q))
    ensures var k := After(m, events).k;
            var t := k.ev.Items(q)[0];
            && t in k.prio && (forall u <- k.ev.Items(q) :: u in k.prio && k.prio[u] <= k.prio[t])
            && Inv(After(m, events))
            && var r := Step(After(m, events), RemoveFromEventList(q)).k;
               && r.ev.Items(q) == k.ev.Items(q)[1..]
               && (if k.nesting == 0 then t in r.st.home && r.st.home[t] == k.prio[t] && t !in r.ev.home
                   else t in r.ev.home && r.ev.home[t] == PENDING)
  {
    FreshInv(m);
    FreshOrdered(m);
    InvAlways(m, events);
    OrderedAlways(m, events);
    HeadWoken(After(m, events), q);
  }

  lemma HeadWoken(m: Machine, q: nat)
    requires Inv(m) && Enabled(m, RemoveFromEventList(q)) && EventsOrdered(m.k)
    ensures var k, r := m.k, Step(m, RemoveFromEventList(q)).k;
            var t := k.ev.Items(q)[0];
            && t in k.prio && (forall u <- k.ev.Items(q) :: u in k.prio && k.prio[u] <= k.prio[t])
            && r.ev.Items(q) == k.ev.Items(q)[1..]
            && (if k.nesting == 0 then t in r.st.home && r.st.home[t] == k.prio[t] && t !in r.ev.home
                else t in r.ev.home && r.ev.home[t] == PENDING)
  {
    WokenListed(m.k, q);
    var k, s := m.k, m.k.ev.Items(q);
    forall u <- s ensures u in k.prio && k.prio[u] <= k.prio[s[0]] {
      assert u in k.ev.lists[q].items;
      assert Descending(k.prio, s);
    }
  }

  // The priority of a task that waits behind another of its own is raised: the list is out of
  // order, and the next event readies the other task although the raised one outranks it.
  lemma RaisedBehind(m: Machine, q: nat, p: nat)
    requires Inv(m) && m.k.running && EventsOrdered(m.k) && PENDING < q < |m.k.ev.lists| && |m.k.ev.Items(q)| > 1
    requires var s := m.k.ev.Items(q); Rank(m.k.prio, s[0]) == Rank(m.k.prio, s[1]) < p < MAX_PRIORITIES
    ensures var s := m.k.ev.Items(q);
            && Enabled(m, TaskPrioritySet(s[1], p)) && !Fits(m.k, TaskPrioritySet(s[1], p))
            && var r := Step(m, TaskPrioritySet(s[1], p)).k;
               && !EventsOrdered(r) && r.ev == m.k.ev
               && Rank(r.prio, s[0]) == Rank(m.k.prio, s[0]) && Rank(r.prio, s[1]) == p
  {
    var s := m.k.ev.Items(q);
    var t := s[1];
    assert t in m.k.ev.lists[q].items && s[0] in m.k.ev.lists[q].items;
    assert t != s[0];
    assert t != m.k.idle;
    StepOrder(m, TaskPrioritySet(t, p));
  }

  // ---- a run that does so

  // A run under way: after these events the machine is n, with all lists in order.
  ghost predicate Reached(m: Machine, events: seq<Event>, n: Machine) {
    Inv(m) && Possible(m, events) && n == After(m, events) && Inv(n) && EventsOrdered(n.k)
  }

  lemma {:induction false} Forward(m: Machine, events: seq<Event>, e: Event)
    requires Inv(m) && Possible(m, events) && Inv(After(m, events)) && Enabled(After(m, events), e)
    ensures Possible(m, events + [e]) && After(m, events + [e]) == Step(After(m, events), e)
    decreases |events|
  {
    hide Inv;
    hide Step;
    hide Enabled;
    if events == [] {
      RunStep(m, e, []);
      assert [e] + [] == events + [e];
    } else {
      assert (events + [e])[1..] == events[1..] + [e];
      InvKept(m, events[0]);
      Forward(Step(m, events[0]), events[1..], e);
    }
  }

  lemma Do(m: Machine, events: seq<Event>, n: Machine, e: Event) returns (late: seq<Event>, r: Machine)
    requires Reached(m, events, n) && Inv(n) && Enabled(n, e) && !e.PlaceRestricted? && !e.TaskPrioritySet?
    ensures r == Step(n, e) && late == events + [e] && Reached(m, late, r) && Inv(r)
  {
    hide Inv;
    hide Step;
    hide Enabled;
    hide After;
    hide Possible;
    hide EventsOrdered;
    hide Fits;
    Forward(m, events, e);
    InvKept(n, e);
    AlwaysFits(n.k, e);
    StepOrder(n, e);
    late, r := events + [e], Step(n, e);
  }

  lemma CreateIs(k: Kernel, t: Task, p: nat)
    requires k.Partitioned() && t !in k.prio && p < MAX_PRIORITIES && !k.running && k.prio[k.current] <= p
    ensures var r := Create(k, t, p);
            && r.prio == k.prio[t := p] && r.st.home == k.st.home[t := p] && r.ev == k.ev && r.current == t
            && !r.running && r.nesting == k.nesting
  {
  }

  lemma CreateStep(m: Machine, t: Task, p: nat)
    requires Inv(m) && !m.k.running && t !in m.k.prio && p < MAX_PRIORITIES
    requires m.k.current in m.k.prio && m.k.prio[m.k.current] <= p
    ensures Enabled(m, TaskCreate(t, p))
    ensures var k, r := m.k, Step(m, TaskCreate(t, p)).k;
            && r.prio == k.prio[t := p] && r.st.home == k.st.home[t := p] && r.ev == k.ev && r.current == t
            && !r.running && r.nesting == k.nesting
  {
    CreateIs(m.k, t, p);
    hide Create;
  }

  // The running task can go to wait on list q, behind all that wait there.
  predicate MayWait(k: Kernel, q: nat) {
    && k.running && k.nesting == 0 && k.Ready(k.current) && k.current != k.idle && PENDING < q < |k.ev.lists|
    && forall u <- k.ev.Items(q) :: Rank(k.prio, u) >= Rank(k.prio, k.current)
  }

  // It has gone to wait there, and a ready task outranked by none runs.
  predicate SetAside(k: Kernel, r: Kernel, q: nat) {
    && PENDING < q < |k.ev.lists| == |r.ev.lists|
    && r.prio == k.prio && r.idle == k.idle && r.running && r.nesting == 0
    && r.st.home == k.st.home[k.current := SUSPENDED] && r.ev.Items(q) == k.ev.Items(q) + [k.current]
    && r.Ready(r.current)
    && forall u <- r.st.home :: r.Ready(u) ==> Rank(r.prio, u) <= Rank(r.prio, r.current)
  }

  lemma PlaceOnIs(k: Kernel, q: nat)
    requires k.Partitioned() && MayWait(k.(nesting := 0), q)
    ensures var r := PlaceOn(k, q, MAX_DELAY);
            && r == k.(st := r.st, ev := r.ev) && r.st.home == k.st.home[k.current := SUSPENDED]
            && |r.ev.lists| == |k.ev.lists| && r.ev.Items(PENDING) == k.ev.Items(PENDING)
            && r.ev.Items(q) == k.ev.Items(q) + [k.current]
  {
    CurrentLives(k);
    var s := k.ev.Items(q);
    JoinsBehind(k.prio, s, k.current);
    hide Homes;
    hide Shelf.Valid;
  }

  lemma JoinsBehind(prio: map<Task, nat>, s: seq<Task>, t: Task)
    requires (forall u <- s :: u in prio && prio[u] < MAX_PRIORITIES) && t in prio && prio[t] < MAX_PRIORITIES
    requires forall u <- s :: Rank(prio, u) >= Rank(prio, t)
    ensures var at := ScanPoint(EventKeys(prio, s), MAX_PRIORITIES - prio[t]);
            at == |s| && InsertAt(s, at, t) == s + [t]
  {
    hide ScanPoint;
    hide InsertAt;
    assert ScanPoint(EventKeys(prio, s), MAX_PRIORITIES - prio[t]) == |s|;
    InsertAtIs(s, |s|, t);
  }

  lemma ResumeQuiet(k: Kernel)
    requires k.Partitioned() && k.nesting == 1 && k.pended == 0 && k.ev.Items(PENDING) == []
    ensures var r := Scheduler.ResumeAll(k); r == k.(nesting := 0, switchAsked := r.switchAsked)
  {
    var d := k.(nesting := 0);
    CatchUpNext(d, 0);
    hide CatchUp;
  }

  lemma Quiet(m: Machine)
    requires Inv(m)
    ensures m.k.Partitioned()
    ensures m.k.nesting == 0 ==> m.k.pended == 0 && m.k.ev.Items(PENDING) == []
  {
  }

  lemma DeeperStep(m: Machine)
    requires Inv(m) && m.k.running
    ensures Enabled(m, SuspendAll) && Step(m, SuspendAll) == m.(k := m.k.(nesting := m.k.nesting + 1))
  {
    hide Inv;
  }

  lemma PlaceStep(m: Machine, q: nat)
    requires Inv(m) && MayWait(m.k.(nesting := 0), q) && m.k.nesting > 0
    ensures Enabled(m, PlaceOnEventList(q, MAX_DELAY))
    ensures var k, r := m.k, Step(m, PlaceOnEventList(q, MAX_DELAY)).k;
            && r == k.(st := r.st, ev := r.ev) && r.st.home == k.st.home[k.current := SUSPENDED]
            && |r.ev.lists| == |k.ev.lists| && r.ev.Items(PENDING) == k.ev.Items(PENDING)
            && r.ev.Items(q) == k.ev.Items(q) + [k.current]
  {
    hide Inv;
    hide PlaceOn;
    hide Kernel.Partitioned;
    hide Rank;
    Quiet(m);
    PlaceOnIs(m.k, q);
  }

  lemma ResumeStep(m: Machine)
    requires Inv(m) && m.k.running && m.k.nesting == 1 && m.k.pended == 0 && m.k.ev.Items(PENDING) == []
    ensures Enabled(m, ResumeAll)
    ensures var r := Step(m, ResumeAll).k; r == m.k.(nesting := 0, switchAsked := r.switchAsked)
  {
    hide Inv;
    hide Scheduler.ResumeAll;
    hide Kernel.Partitioned;
    Quiet(m);
    ResumeQuiet(m.k);
  }

  lemma YieldStep(m: Machine)
    requires Inv(m) && m.k.running
    ensures Enabled(m, Yield) && Step(m, Yield) == m.(k := m.k.(switchAsked := true))
  {
    hide Inv;
  }

  lemma SwitchStep(m: Machine)
    requires Inv(m) && m.k.running && m.k.nesting == 0 && m.k.switchAsked
    ensures Enabled(m, ContextSwitch)
    ensures var k, r := m.k, Step(m, ContextSwitch).k;
            && r == k.(st := r.st, current := r.current, topReady := r.topReady, yieldPending := false, switchAsked := false)
            && r.st.home == k.st.home && r.Ready(r.current)
            && forall u <- r.st.home :: r.Ready(u) ==> Rank(r.prio, u) <= Rank(r.prio, r.current)
  {
    SelectsHighest(m.k, m.k.idle);
    SwitchFields(m.k);
    RankedLives(SwitchContext(m.k));
    hide SwitchContext;
    hide Kernel.Partitioned;
  }

  lemma SwitchFields(k: Kernel)
    requires k.Partitioned() && k.nesting == 0
    requires k.topReady < MAX_PRIORITIES && exists t :: t in k.st.home && k.st.home[t] <= k.topReady
    ensures var r := SwitchContext(k);
            r == k.(st := r.st, current := r.current, topReady := r.topReady, yieldPending := false, switchAsked := false)
  {
  }

  lemma RankedLives(k: Kernel)
    requires k.Partitioned()
    ensures forall t <- k.st.home :: t in k.prio
  {
  }

  lemma DoWait(m: Machine, events: seq<Event>, n: Machine, q: nat) returns (late: seq<Event>, r: Machine)
    requires Reached(m, events, n) && Inv(n) && MayWait(n.k, q)
    ensures Reached(m, late, r) && Inv(r) && SetAside(n.k, r.k, q)
  {
    hide Reached;
    hide Inv;
    hide Enabled;
    hide Step;
    hide Rank;
    late := events;
    r := n;
    Quiet(r);
    DeeperStep(r);
    late, r := Do(m, late, r, SuspendAll);
    PlaceStep(r, q);
    late, r := Do(m, late, r, PlaceOnEventList(q, MAX_DELAY));
    ResumeStep(r);
    late, r := Do(m, late, r, ResumeAll);
    YieldStep(r);
    late, r := Do(m, late, r, Yield);
    SwitchStep(r);
    late, r := Do(m, late, r, ContextSwitch);
  }

  lemma Begun(m: Machine)
    requires Fresh(m) && m.k.prio[m.k.current] == 0 && |m.k.ev.lists| > 1
    ensures Reached(m, [], m) && Inv(m) && m.k.nesting == 0 && !m.k.running && m.k.prio == map[m.k.current := 0] && m.k.ev.Items(1) == []
    ensures m.k.st.home == map[m.k.current := 0]
  {
    FreshInv(m);
    FreshOrdered(m);
    NoItems(m.k.ev, 1);
    assert m.k.prio.Keys == {m.k.current} by {
      assert |m.k.prio.Keys - {m.k.current}| == 0;
    }
  }

  lemma StartStep(m: Machine, i: Task)
    requires Inv(m) && !m.k.running && i in m.k.st.home && m.k.st.home[i] == 0
    ensures Enabled(m, StartScheduler(i))
    ensures Step(m, StartScheduler(i)).k == m.k.(running := true, idle := i, tick := 0, nextUnblock := MAX_DELAY)
  {
    hide Inv;
  }

  // Of these three tasks only t, beside the idle task, is ready when u has gone to wait.
  lemma OneLeft(k: Kernel, r: Kernel, c: Task, t: Task, u: Task)
    requires SetAside(k, r, 1) && k.current == u && k.prio == map[c := 0, t := 1, u := 1]
    requires k.st.home == map[c := 0, t := 1, u := 1] && c != t && c != u && t != u
    ensures r.current == t && r.st.home == map[c := 0, t := 1, u := SUSPENDED]
  {
    assert r.Ready(t) && Rank(r.prio, t) == 1;
  }

  lemma Raised(m: Machine, events: seq<Event>, n: Machine, t: Task, u: Task)
    requires Reached(m, events, n) && Inv(n) && n.k.running && |n.k.ev.lists| > 1 && n.k.ev.Items(1) == [u, t]
    requires Rank(n.k.prio, t) == Rank(n.k.prio, u) == 1
    ensures Possible(m, events) && Possible(m, events + [TaskPrioritySet(t, 2)])
    ensures EventsOrdered(After(m, events).k) && !EventsOrdered(After(m, events + [TaskPrioritySet(t, 2)]).k)
    ensures var k := After(m, events + [TaskPrioritySet(t, 2)]).k;
            k.ev == n.k.ev && Rank(k.prio, u) == 1 && Rank(k.prio, t) == 2
  {
    hide Inv;
    hide Step;
    hide Enabled;
    hide EventsOrdered;
    hide After;
    hide Possible;
    RaisedBehind(n, 1, 2);
    Forward(m, events, TaskPrioritySet(t, 2));
  }

  // Two tasks are created beside the first one, which is the idle task; they come to wait on
  // list 1, and the priority of the second is raised.  The next event then readies the first.
  lemma RaisedInRun(m: Machine, t: Task, u: Task) returns (events: seq<Event>)
    requires Fresh(m) && m.k.prio[m.k.current] == 0 && t != u && t !in m.k.prio && u !in m.k.prio && |m.k.ev.lists| > 1
    ensures Possible(m, events) && Possible(m, events + [TaskPrioritySet(t, 2)])
    ensures EventsOrdered(After(m, events).k) && !EventsOrdered(After(m, events + [TaskPrioritySet(t, 2)]).k)
    ensures var k := After(m, events + [TaskPrioritySet(t, 2)]).k;
            |k.ev.lists| > 1 && k.ev.Items(1) == [u, t] && Rank(k.prio, u) == 1 && Rank(k.prio, t) == 2
  {
    hide Reached;
    hide Inv;
    hide Enabled;
    hide Step;
    hide Fresh;
    var c, n := m.k.current, m;
    events := [];
    Begun(m);
    CreateStep(n, t, 1);
    events, n := Do(m, events, n, TaskCreate(t, 1));
    CreateStep(n, u, 1);
    events, n := Do(m, events, n, TaskCreate(u, 1));
    StartStep(n, c);
    events, n := Do(m, events, n, StartScheduler(c));
    var k := n.k;
    events, n := DoWait(m, events, n, 1);
    OneLeft(k, n.k, c, t, u);
    events, n := DoWait(m, events, n, 1);
    Raised(m, events, n, t, u);
  }
}
