// The timer daemon.  Its lists hold 32-bit expiry times and trade places when the tick count
// wraps; against unbounded time every auto-reload timer expires at start + period,
// start + 2 * period, and so on.
module Timers {

  import opened ListModel
  import opened Shelves
  import opened SortedLists
  import opened Ticks
  import opened TimerCourses

  const CURRENT_1 := 0
  const CURRENT_2 := 1

  // What the daemon does after prvProcessTimerOrBlockTask.
  datatype Outcome = GoOn | WaitFor(ticks: Tick, indefinitely: bool)

  class TimerService {
    var lists: Shelf
    var current: nat
    var value: map<Timer, Tick>
    var period: map<Timer, Tick>
    var autoReload: map<Timer, bool>
    var active: map<Timer, bool>
    var lastTime: Tick
    ghost var now: nat
    ghost var due: map<Timer, nat>
    ghost var course: map<Timer, Course>
    // The timers that the command kept for tracing has last taken out of a list.
    ghost var traced: set<Timer>

    ghost predicate Shape()
      reads this
    {
      && lists.Valid() && |lists.lists| == 2 && (current == CURRENT_1 || current == CURRENT_2)
      && autoReload.Keys == period.Keys && active.Keys == period.Keys
      && (forall t <- period :: t in value && t in due && t in course)
      && (forall t <- lists.home :: t in period)
      && (forall t <- period :: period[t] >= 1)
      && (forall t <- lists.Items(CURRENT_1) :: t in value) && (forall t <- lists.Items(CURRENT_2) :: t in value)
      && SortedBy(value, lists.Items(CURRENT_1)) && SortedBy(value, lists.Items(CURRENT_2))
    }

    ghost predicate Filed(n: nat)
      reads this
    {
      FiledIn(lists.home, current, value, due, period, n)
    }

    // Every listed timer is due when the next callback of its course is.
    ghost predicate OnCourse()
      reads this
    {
      Matching(lists.home, due, course, period)
    }

    ghost predicate Valid()
      reads this
    {
      Shape() && Filed(now) && OnCourse() && lastTime == TickOf(now)
    }

    // A timer is marked active exactly when it is in a list or has been taken out for tracing.
    ghost predicate ActiveOk()
      reads this
    {
      ActiveBut(traced) && Astray(active, lists.home, traced)
    }

    ghost predicate ActiveBut(except: set<Timer>)
      reads this
    {
      Marked(active, lists.home, except)
    }

    // Every listed timer goes on with its course, and timers in no list are left alone.
    twostate predicate AllGoOn()
      reads this
    {
      && active.Keys == old(active).Keys
      && (forall u <- active :: u !in old(lists.home) ==> active[u] == old(active)[u])
      && CarriedOver(old(lists.home), lists.home, old(autoReload), old(course), course, {})
    }

    // Only t has been filed anew or had its course advanced.
    twostate predicate Only(t: Timer)
      reads this
    {
      && lists.home - {t} == old(lists).home - {t}
      && value - {t} == old(value) - {t}
      && due - {t} == old(due) - {t}
      && course - {t} == old(course) - {t}
    }

    // Timer t, which was due by n, has made its callback, and is due no more; no other has changed.
    twostate predicate Expired(t: Timer, n: nat)
      reads this
    {
      && t in old(lists).home && t in old(due) && old(due)[t] <= n
      && t in old(course) && t in course && course[t].fired > old(course)[t].fired
      && (t in lists.home ==> t in due && n < due[t]) && Only(t)
    }

    // The timers whose expiry is at or before n.
    ghost function Overdue(n: nat): set<Timer>
      reads this
    {
      set t | t in lists.home && t in due && due[t] <= n
    }

    constructor ()
      ensures Valid() && ActiveOk() && now == 0
      ensures period == map[] && lists.home == map[] && traced == {}
    {
      lists := Shelf([Ring([], 0), Ring([], 0)], map[]);
      current, lastTime, now := CURRENT_1, 0, 0;
      value, period, autoReload, active, due, course := map[], map[], map[], map[], map[], map[];
      traced := {};
    }

    // vListInsert
    method InsertByExpiry(i: nat, t: Timer)
      requires Shape() && t in period && t !in lists.home && i < 2
      modifies this`lists
      ensures Shape() && lists.home == old(lists).home[t := i]
    {
      hide SortedBy;
      hide Shelf.Valid;
      hide Shelf.PutAt;
      hide Values;
      hide ScanPoint;
      ItemsKnown(i);
      var items := lists.Items(i);
      var at := Scan(Values(value, items), value[t]);
      InsertedSorted(i, t, at);
      lists := lists.PutAt(i, at, t);
    }

    lemma ItemsKnown(i: nat)
      requires Shape() && i < 2
      ensures lists.Has(i) && forall t <- lists.Items(i) :: t in value
    {
    }

    lemma InsertedSorted(i: nat, t: Timer, at: nat)
      requires Shape() && t in period && t !in lists.home && i < 2 && lists.Has(i)
      requires (forall u <- lists.Items(i) :: u in value) && at == ScanPoint(Values(value, lists.Items(i)), value[t])
      ensures at <= |lists.Items(i)| && t in value
      ensures var s := lists.PutAt(i, at, t);
              && s.Valid()
              && (forall u <- s.Items(CURRENT_1) :: u in value) && SortedBy(value, s.Items(CURRENT_1))
              && (forall u <- s.Items(CURRENT_2) :: u in value) && SortedBy(value, s.Items(CURRENT_2))
    {
      assert t !in lists.lists[CURRENT_1].items && t !in lists.lists[CURRENT_2].items;
      PutAtValid(lists, i, at, t);
      SortedInsertTask(value, lists.Items(i), Values(value, lists.Items(i)), t, value[t]);
      assert value[t := value[t]] == value;
      hide SortedBy;
      hide Shelf.Valid;
      assert lists.PutAt(i, at, t).Items(i) == InsertAt(lists.Items(i), at, t);
      assert lists.PutAt(i, at, t).Items(1 - i) == lists.Items(1 - i);
    }

    // The timer's item takes a new value while in no list.
    method SetValue(t: Timer, v: Tick)
      requires Shape() && t in period && t !in lists.home
      modifies this`value
      ensures Shape() && value == old(value)[t := v]
    {
      assert t !in lists.lists[CURRENT_1].items && t !in lists.lists[CURRENT_2].items;
      SortedElsewhere(value, lists.Items(CURRENT_1), t, v);
      SortedElsewhere(value, lists.Items(CURRENT_2), t, v);
      value := value[t := v];
    }

    // The timer, in no list so far, is filed in list i.
    method FileTimer(i: nat, t: Timer, ghost n: nat)
      requires Shape() && Filed(n) && t in period && t !in lists.home && i < 2
      requires value[t] == TickOf(due[t]) && due[t] <= n + period[t]
      requires Epoch(due[t]) == Epoch(n) + (if i == current then 0 else 1)
      modifies this`lists
      ensures Shape() && Filed(n) && t in lists.home && lists.home - {t} == old(lists).home - {t}
    {
      UpdateMinus(lists.home, t, i);
      InsertByExpiry(i, t);
    }

    // The item value for an expiry at unbounded time d.
    method SetExpiry(t: Timer, expiry: Tick, ghost d: nat, ghost n: nat)
      requires Shape() && Filed(n) && t in period && t !in lists.home
      modifies this`value, this`due
      ensures Shape() && Filed(n) && due[t] == d && value[t] == expiry
      ensures due - {t} == old(due) - {t} && value - {t} == old(value) - {t}
    {
      UpdateMinus(due, t, d);
      UpdateMinus(value, t, expiry);
      due := due[t := d];
      SetValue(t, expiry);
    }

    method Decide(expiry: Tick, timeNow: Tick, command: Tick, p: Tick) returns (f: Filing)
      ensures f == Placing(expiry, timeNow, command, p)
    {
      if expiry <= timeNow {
        if Minus(timeNow, command) >= p {
          f := ProcessNow;
        } else {
          f := Overflow;
        }
      } else {
        if timeNow < command && expiry >= command {
          f := ProcessNow;
        } else {
          f := Current;
        }
      }
    }

    // prvInsertTimerInActiveList, for a command or an expiry at unbounded time c.
    method InsertTimerInActiveList(t: Timer, expiry: Tick, timeNow: Tick, command: Tick,
                                   ghost c: nat, ghost n: nat)
        returns (processNow: bool)
      requires Shape() && Filed(n) && t in period && t !in lists.home
      requires timeNow == TickOf(n) && command == TickOf(c) && expiry == TickOf(c + period[t])
      requires c <= n < c + WRAP
      modifies this`lists, this`value, this`due
      ensures Shape() && Filed(n) && due[t] == c + period[t]
      ensures processNow <==> c + period[t] <= n
      ensures t in lists.home <==> !processNow
      ensures Only(t)
    {
      hide SortedBy;
      hide Shelf.Valid;
      hide TickOf;
      hide Epoch;
      hide Placing;
      PlacingExact(c, n, period[t]);
      SetExpiry(t, expiry, c + period[t], n);
      var f := Decide(expiry, timeNow, command, period[t]);
      processNow := f == ProcessNow;
      if f != ProcessNow {
        FileTimer(if f == Overflow then CURRENT_1 + CURRENT_2 - current else current, t, n);
      }
    }

    // uxListRemove
    method TakeOut(t: Timer)
      requires Shape() && t in lists.home
      modifies this`lists
      ensures Shape() && lists.home == old(lists).home - {t}
      ensures lists.Items(old(lists).home[t]) == RemoveOne(old(lists).Items(old(lists).home[t]), t)
      ensures lists.Items(1 - old(lists).home[t]) == old(lists).Items(1 - old(lists).home[t])
    {
      var i := lists.home[t];
      TakeValid(lists, t);
      SortedRemove(value, lists.Items(i), t);
      lists := lists.Take(t);
    }

    // The callback: all the daemon knows of it is that it was made.
    ghost method Callback(t: Timer)
      requires Shape() && t in period
      modifies this`course
      ensures Shape()
      ensures course == old(course)[t := Course(old(course)[t].base, old(course)[t].fired + 1)]
      ensures course - {t} == old(course) - {t}
    {
      UpdateMinus(course, t, Course(course[t].base, course[t].fired + 1));
      course := course[t := Course(course[t].base, course[t].fired + 1)];
    }

    // The timer's last expiry, whose callback is still to be made, was at unbounded time y, and
    // it has been filed for the next one unless that has passed as well.
    ghost predicate Reloading(t: Timer, y: nat, n: nat, again: bool)
      reads this
    {
      && Shape() && Filed(n) && t in period && (t in lists.home <==> !again)
      && due[t] == y + period[t] && y <= n && (again <==> due[t] <= n)
      && NextExpiry(course[t], period[t]) == y
    }

    // One round of the loop of prvReloadTimer: another expiration has passed.
    method ReloadAgain(t: Timer, expired: Tick, timeNow: Tick, ghost y: nat, ghost n: nat)
        returns (next: Tick, again: bool)
      requires Reloading(t, y, n, true) && timeNow == TickOf(n) && expired == TickOf(y) && n < y + WRAP
      modifies this`lists, this`value, this`due, this`course
      ensures next == TickOf(y + period[t]) && Reloading(t, y + period[t], n, again) && Only(t)
      ensures course[t] == Course(old(course)[t].base, old(course)[t].fired + 1)
    {
      hide FiledIn;
      hide TickOf;
      hide Plus;
      hide NextExpiry;
      hide SortedBy;
      hide Shelf.Valid;
      NextFired(course[t], period[t]);
      PlusTick(y, period[t]);
      PlusTick(y + period[t], period[t]);
      next := Plus(expired, period[t]);
      Callback(t);
      again := InsertTimerInActiveList(t, Plus(next, period[t]), timeNow, next, y + period[t], n);
    }

    // prvReloadTimer, for a timer that expired at unbounded time x and whose callback for that
    // is still to be made: it terminates, makes the callbacks of all earlier expirations but one
    // up to n, and files the timer for the first expiration after n.
    method ReloadTimer(t: Timer, expiredTime: Tick, timeNow: Tick, ghost x: nat, ghost n: nat)
      requires Shape() && Filed(n) && t in period && t !in lists.home
      requires timeNow == TickOf(n) && expiredTime == TickOf(x) && x <= n < x + WRAP
      requires NextExpiry(course[t], period[t]) == x
      modifies this`lists, this`value, this`due, this`course
      ensures Shape() && Filed(n) && t in lists.home
      ensures due[t] == NextExpiry(course[t], period[t]) + period[t] && n < due[t] <= n + period[t]
      ensures course[t].base == old(course)[t].base && course[t].fired >= old(course)[t].fired
      ensures Only(t)
    {
      hide FiledIn;
      hide TickOf;
      hide Plus;
      hide NextExpiry;
      hide Shape;
      hide Reloading;
      ShapeSizes();
      PlusTick(x, period[t]);
      var expired := expiredTime;
      ghost var y: nat := x;
      var again := InsertTimerInActiveList(t, Plus(expired, period[t]), timeNow, expired, y, n);
      ReloadBegun(t, y, n, again);
      while again
        invariant Reloading(t, y, n, again) && expired == TickOf(y) && x <= y && Only(t)
        invariant t in period && t in course && period[t] >= 1
        invariant course[t].base == old(course)[t].base && course[t].fired >= old(course)[t].fired
        decreases n - y
      {
        ghost var z: nat := y + period[t];
        ReloadSoFar(t, y, n, again);
        expired, again := ReloadAgain(t, expired, timeNow, y, n);
        ReloadSoFar(t, z, n, again);
        y := z;
      }
      ReloadSoFar(t, y, n, again);
    }

    lemma ReloadBegun(t: Timer, y: nat, n: nat, again: bool)
      requires Shape() && Filed(n) && t in period && (t in lists.home <==> !again)
      requires due[t] == y + period[t] && y <= n && (again <==> due[t] <= n) && NextExpiry(course[t], period[t]) == y
      ensures Reloading(t, y, n, again)
    {
    }

    lemma ReloadSoFar(t: Timer, y: nat, n: nat, again: bool)
      requires Reloading(t, y, n, again)
      ensures Shape() && Filed(n) && t in period && t in course && t in due && period[t] >= 1
      ensures (t in lists.home <==> !again) && y <= n && (again ==> y + period[t] <= n)
      ensures due[t] == NextExpiry(course[t], period[t]) + period[t]
      ensures !again ==> n < due[t] <= n + period[t]
    {
      hide FiledIn;
      hide NextExpiry;
      hide SortedBy;
      hide Shelf.Valid;
    }

    // The timer has been taken out at an expiry at unbounded time x; reload it or not, and make
    // the callback.
    method Expire(t: Timer, expireTime: Tick, timeNow: Tick, ghost x: nat, ghost n: nat)
      requires Shape() && Filed(n) && OnCourse() && t in period && t !in lists.home
      requires timeNow == TickOf(n) && expireTime == TickOf(x) && x <= n < x + WRAP
      requires NextExpiry(course[t], period[t]) == x
      modifies this`lists, this`value, this`due, this`course, this`active
      ensures Shape() && Filed(n) && OnCourse() && Only(t)
      ensures t in lists.home <==> autoReload[t]
      ensures t in lists.home ==> n < due[t] <= n + period[t] && due[t] == NextExpiry(course[t], period[t])
      ensures active == if autoReload[t] then old(active) else old(active)[t := false]
      ensures course[t].base == old(course)[t].base
      ensures if autoReload[t] then course[t].fired > old(course)[t].fired
              else course[t].fired == old(course)[t].fired + 1
    {
      hide FiledIn;
      hide TickOf;
      hide Epoch;
      hide NextExpiry;
      hide SortedBy;
      hide Shelf.Valid;
      hide Matching;
      if autoReload[t] {
        ReloadTimer(t, expireTime, timeNow, x, n);
        NextFired(course[t], period[t]);
      } else {
        active := active[t := false];
      }
      Callback(t);
      MatchingOnly(old(lists.home), old(due), old(course), lists.home, due, course, period, t);
    }

    // prvProcessExpiredTimer
    method ProcessExpiredTimer(expireTime: Tick, timeNow: Tick, ghost n: nat) returns (ghost t: Timer)
      requires Shape() && Filed(n) && OnCourse() && timeNow == TickOf(n) && lists.Items(current) != []
      requires expireTime == value[lists.Items(current)[0]] && expireTime <= timeNow
      modifies this`lists, this`value, this`due, this`course, this`active
      ensures Shape() && Filed(n) && OnCourse() && Only(t)
      ensures t == old(lists).Items(current)[0] && t in period && t in old(lists).home
      ensures t in lists.home <==> autoReload[t]
      ensures t in lists.home ==> n < due[t]
      ensures active == if autoReload[t] then old(active) else old(active)[t := false]
      ensures t in old(course) && GoesOn(t in lists.home, autoReload[t], old(course)[t], course[t])
      ensures course[t].fired > old(course)[t].fired && t in old(due) && old(due)[t] <= n
    {
      var head := lists.Items(current)[0];
      t := head;
      assert head in lists.lists[current].items;
      HeadDue(head, n);
      TakeOut(head);
      Expire(head, expireTime, timeNow, due[head], n);
    }

    // An item of the current list whose value is at or below the tick count is due, and has
    // been for less than a turn of the count.
    lemma HeadDue(t: Timer, n: nat)
      requires Shape() && t in lists.home && Filed(n) && lists.home[t] == current && value[t] <= TickOf(n)
      ensures due[t] <= n < due[t] + WRAP && value[t] == TickOf(due[t])
    {
    }

    lemma Listed(i: nat)
      requires Shape() && i < 2
      ensures lists.Items(i) == [] <==> (forall t <- lists.home :: lists.home[t] != i)
    {
      if lists.Items(i) != [] {
        assert lists.Items(i)[0] in lists.lists[i].items;
      }
      forall t <- lists.home | lists.home[t] == i ensures lists.Items(i) != [] {
        assert t in lists.lists[i].items;
      }
    }

    // prvSwitchTimerLists, at the last tick n of the epoch: it terminates because a timer that
    // is reloaded there belongs to the next epoch.
    method SwitchTimerLists(ghost n: nat, ghost except: set<Timer>)
      requires Shape() && Filed(n) && OnCourse() && TickOf(n) == MAX_DELAY
      requires ActiveBut(except) && lists.home.Keys !! except
      modifies this`lists, this`value, this`due, this`course, this`active, this`current
      ensures Shape() && Filed(n + 1) && OnCourse() && ActiveBut(except) && AllGoOn()
    {
      hide Matching;
      hide Marked;
      hide CarriedOver;
      hide FiledIn;
      hide Shape;
      ShapeSizes();
      CarriedSame(lists.home, autoReload, course);
      while lists.Items(current) != []
        invariant Shape() && Filed(n) && OnCourse() && ActiveBut(except) && AllGoOn() && lists.home.Keys !! except
        invariant |lists.lists| == 2 && current < 2
        decreases set t | t in lists.home && lists.home[t] == current
      {
        ghost var before, courses := lists.home, course;
        ExpireBeforeSwitch(n, except);
        CarriedTrans(old(lists.home), before, lists.home, autoReload, old(course), courses, course, {});
        CarriedKeys(old(lists.home), before, autoReload, old(course), courses, except);
        CarriedKeys(before, lists.home, autoReload, courses, course, except);
        ShapeSizes();
      }
      TradePlaces(n);
    }

    lemma ShapeSizes()
      requires Shape()
      ensures |lists.lists| == 2 && (current == CURRENT_1 || current == CURRENT_2)
      ensures forall u <- lists.home :: u in autoReload && u in course
      ensures active.Keys == period.Keys == autoReload.Keys && forall u <- period :: u in course && u in due && period[u] >= 1
    {
    }

    method TradePlaces(ghost n: nat)
      requires Shape() && Filed(n) && TickOf(n) == MAX_DELAY && lists.Items(current) == []
      modifies this`current
      ensures Shape() && Filed(n + 1)
    {
      Listed(current);
      FiledAcross(n);
      hide FiledIn;
      current := CURRENT_1 + CURRENT_2 - current;
    }

    lemma CarriedKeys(home: map<Timer, nat>, home': map<Timer, nat>, reload: map<Timer, bool>,
                      course: map<Timer, Course>, course': map<Timer, Course>, except: set<Timer>)
      requires CarriedOver(home, home', reload, course, course', {}) && home.Keys !! except
      ensures home'.Keys !! except && home'.Keys <= home.Keys
    {
      assert home'.Keys <= home.Keys;
    }

    lemma FiledAcross(n: nat)
      requires Shape() && Filed(n) && TickOf(n) == MAX_DELAY && forall t <- lists.home :: lists.home[t] != current
      ensures FiledIn(lists.home, CURRENT_1 + CURRENT_2 - current, value, due, period, n + 1)
    {
    }

    // One round of its loop.
    method ExpireBeforeSwitch(ghost n: nat, ghost except: set<Timer>)
      requires Shape() && Filed(n) && OnCourse() && TickOf(n) == MAX_DELAY && lists.Items(current) != []
      requires ActiveBut(except) && lists.home.Keys !! except
      modifies this`lists, this`value, this`due, this`course, this`active
      ensures Shape() && Filed(n) && OnCourse() && ActiveBut(except) && AllGoOn()
      ensures (set t | t in lists.home && lists.home[t] == current) <
              old(set t | t in lists.home && lists.home[t] == current)
    {
      ghost var before := lists.home;
      HeadListed();
      hide Matching;
      hide Marked;
      hide SortedBy;
      hide FiledIn;
      hide Shelf.Valid;
      ghost var t := ExpireCurrent(value[lists.Items(current)[0]], MAX_DELAY, n, except);
      Shrinks(before, t, n);
    }

    lemma HeadListed()
      requires Shape() && lists.Items(current) != []
      ensures var t := lists.Items(current)[0]; t in lists.home && t in value && lists.home[t] == current
      ensures lists.Items(current)[0] in active
      ensures forall u <- lists.home :: u in autoReload && u in course
    {
      assert lists.Items(current)[0] in lists.lists[current].items;
    }

    // prvProcessExpiredTimer, and what it means for marks and courses.
    method ExpireCurrent(expireTime: Tick, timeNow: Tick, ghost n: nat, ghost except: set<Timer>) returns (ghost t: Timer)
      requires Shape() && Filed(n) && OnCourse() && timeNow == TickOf(n) && lists.Items(current) != []
      requires lists.Items(current)[0] in value && expireTime == value[lists.Items(current)[0]] && expireTime <= timeNow
      requires ActiveBut(except) && lists.home.Keys !! except
      modifies this`lists, this`value, this`due, this`course, this`active
      ensures Shape() && Filed(n) && OnCourse() && ActiveBut(except) && AllGoOn()
      ensures t == old(lists).Items(current)[0] && lists.home - {t} == old(lists.home) - {t}
      ensures t in lists.home ==> n < due[t]
      ensures Expired(t, n)
    {
      hide Shape;
      hide Filed;
      hide OnCourse;
      hide Marked;
      hide GoesOn;
      hide CarriedOver;
      HeadListed();
      t := ProcessExpiredTimer(expireTime, timeNow, n);
      AfterExpiry(old(lists.home), lists.home, old(active), active, old(course), course, autoReload, t, except);
    }

    lemma Shrinks(before: map<Timer, nat>, t: Timer, n: nat)
      requires Shape() && Filed(n) && TickOf(n) == MAX_DELAY && t in before && before[t] == current
      requires lists.home - {t} == before - {t} && (t in lists.home ==> n < due[t])
      ensures (set u | u in lists.home && lists.home[u] == current) < (set u | u in before && before[u] == current)
    {
      var a, b := set u | u in lists.home && lists.home[u] == current, set u | u in before && before[u] == current;
      assert t in b && t !in a;
      forall u <- a ensures u in b {
        assert u in lists.home - {t};
      }
    }

    lemma FiledLater(a: nat, b: nat)
      requires Shape() && Filed(a) && a <= b && Epoch(a) == Epoch(b)
      ensures Filed(b)
    {
    }

    // prvSampleTimeNow, at unbounded time n.
    method SampleTimeNow(tickCount: Tick, ghost n: nat, ghost except: set<Timer>) returns (switched: bool)
      requires Valid() && tickCount == TickOf(n) && now <= n < now + WRAP
      requires ActiveBut(except) && lists.home.Keys !! except
      modifies this
      ensures traced == old(traced)
      ensures Valid() && now == n && ActiveBut(except) && AllGoOn()
      ensures switched <==> Epoch(n) != Epoch(old(now))
      ensures period == old(period) && autoReload == old(autoReload)
      ensures !switched ==> lists == old(lists) && value == old(value) && current == old(current) && due == old(due)
      ensures !switched ==> course == old(course) && active == old(active)
    {
      hide Shape;
      hide Filed;
      hide OnCourse;
      hide Marked;
      hide CarriedOver;
      hide TickOf;
      hide Epoch;
      WrapSeen(now, n);
      ShapeSizes();
      CarriedSame(lists.home, autoReload, course);
      if tickCount < lastTime {
        ghost var last: nat := Epoch(now) * WRAP + MAX_DELAY;
        FiledLater(now, last);
        SwitchTimerLists(last, except);
        FiledLater(last + 1, n);
        switched := true;
      } else {
        FiledLater(now, n);
        switched := false;
      }
      NoteTime(tickCount, n);
    }

    method NoteTime(tickCount: Tick, ghost n: nat)
      requires Shape() && Filed(n) && OnCourse() && tickCount == TickOf(n)
      modifies this`lastTime, this`now
      ensures Valid() && now == n
    {
      hide FiledIn;
      hide Matching;
      lastTime := tickCount;
      now := n;
    }

    // prvGetNextExpireTime
    method GetNextExpireTime() returns (nextExpire: Tick, listWasEmpty: bool)
      requires Shape()
      ensures listWasEmpty == (lists.Items(current) == [])
      ensures !listWasEmpty ==> lists.Items(current)[0] in value && nextExpire == value[lists.Items(current)[0]]
      ensures listWasEmpty ==> nextExpire == 0
    {
      listWasEmpty := lists.Items(current) == [];
      if listWasEmpty {
        nextExpire := 0;
      } else {
        assert lists.Items(current)[0] in lists.lists[current].items;
        nextExpire := value[lists.Items(current)[0]];
      }
    }

    // prvProcessTimerOrBlockTask at unbounded time n.  When the daemon blocks it never sleeps
    // past an expiry, and it sleeps for ever only if no timer is running.
    method ProcessTimerOrBlockTask(nextExpire: Tick, listWasEmpty: bool, tickCount: Tick, ghost n: nat)
        returns (outcome: Outcome, ghost t: Timer)
      requires Valid() && ActiveOk() && tickCount == TickOf(n) && now <= n < now + WRAP
      requires listWasEmpty == (lists.Items(current) == [])
      requires !listWasEmpty ==> lists.Items(current)[0] in value && nextExpire == value[lists.Items(current)[0]]
      requires listWasEmpty ==> nextExpire == 0
      modifies this
      ensures traced == old(traced)
      ensures Valid() && ActiveOk() && now == n && AllGoOn()
      ensures period == old(period) && autoReload == old(autoReload)
      ensures outcome.WaitFor? ==> forall t <- lists.home :: n < due[t]
      ensures outcome.WaitFor? ==> (outcome.indefinitely <==> lists.home == map[])
      ensures outcome.WaitFor? && !outcome.indefinitely ==>
                forall t <- lists.home :: n + outcome.ticks <= due[t]
      ensures outcome.WaitFor? && outcome.ticks == 0 ==> TickOf(n) == 0
      ensures outcome == GoOn && Epoch(n) == Epoch(old(now)) ==> Expired(t, n)
      ensures outcome.WaitFor? ==>
                && Epoch(n) == Epoch(old(now)) && lists == old(lists) && due == old(due) && course == old(course)
                && if lists.Items(current) == [] then TickOf(n + outcome.ticks) == 0
                   else lists.Items(current)[0] in due && due[lists.Items(current)[0]] == n + outcome.ticks
    {
      hide Shape;
      hide FiledIn;
      hide Matching;
      hide Marked;
      hide Astray;
      hide CarriedOver;
      ghost var home, marks := lists.home, active;
      NoneAstray(active, home, traced);
      var switched := SampleTimeNow(tickCount, n, traced);
      StillAstray(home, marks, old(autoReload), old(course));
      outcome, t := GoOn, 0;
      if !switched {
        outcome, t := ExpireOrWait(nextExpire, listWasEmpty, tickCount);
      }
    }

    // The lists have not been switched: the head expires, or there is time to sleep.
    method ExpireOrWait(nextExpire: Tick, listWasEmpty: bool, tickCount: Tick) returns (outcome: Outcome, ghost t: Timer)
      requires Valid() && ActiveOk() && tickCount == TickOf(now)
      requires listWasEmpty == (lists.Items(current) == [])
      requires !listWasEmpty ==> lists.Items(current)[0] in value && nextExpire == value[lists.Items(current)[0]]
      requires listWasEmpty ==> nextExpire == 0
      modifies this
      ensures traced == old(traced) && Valid() && ActiveOk() && now == old(now) && AllGoOn()
      ensures period == old(period) && autoReload == old(autoReload)
      ensures outcome == GoOn ==> Expired(t, now)
      ensures outcome.WaitFor? ==> lists == old(lists) && due == old(due) && course == old(course)
      ensures outcome.WaitFor? ==> forall u <- lists.home :: u in due && now + outcome.ticks <= due[u] && now < due[u]
      ensures outcome.WaitFor? ==> (outcome.indefinitely <==> lists.home == map[])
      ensures outcome.WaitFor? ==>
                if lists.Items(current) == [] then TickOf(now + outcome.ticks) == 0
                else lists.Items(current)[0] in due && due[lists.Items(current)[0]] == now + outcome.ticks
      ensures outcome.WaitFor? && outcome.ticks == 0 ==> TickOf(now) == 0
    {
      hide SortedBy;
      hide Shelf.Valid;
      hide Matching;
      hide Marked;
      hide Astray;
      hide CarriedOver;
      hide FiledIn;
      if !listWasEmpty && nextExpire <= tickCount {
        outcome := GoOn;
        t := ExpireHead(nextExpire, tickCount);
      } else {
        NoTimers();
        var indefinitely := listWasEmpty && lists.Items(CURRENT_1 + CURRENT_2 - current) == [];
        outcome, t := WaitFor(Minus(nextExpire, tickCount), indefinitely), 0;
        NeverOversleeps(nextExpire, listWasEmpty);
        WaitIs(nextExpire, listWasEmpty);
        AllDue();
        Unmoved();
      }
    }

    lemma Unmoved()
      requires Valid()
      ensures CarriedOver(lists.home, lists.home, autoReload, course, course, {})
    {
      CarriedSame(lists.home, autoReload, course);
    }

    // The wait is the distance to the earliest expiry of the current list, or to the next wrap.
    lemma WaitIs(nextExpire: Tick, listWasEmpty: bool)
      requires Valid() && listWasEmpty == (lists.Items(current) == [])
      requires !listWasEmpty ==> lists.Items(current)[0] in value && nextExpire == value[lists.Items(current)[0]]
      requires if listWasEmpty then nextExpire == 0 else nextExpire > TickOf(now)
      ensures var ticks := Minus(nextExpire, TickOf(now));
              if listWasEmpty then TickOf(now + ticks) == 0
              else lists.Items(current)[0] in due && due[lists.Items(current)[0]] == now + ticks
    {
      hide SortedBy;
      hide FiledAt;
      hide Minus;
      hide TickOf;
      if listWasEmpty {
        DistanceIs(0, 0, 0, now);
      } else {
        var t := lists.Items(current)[0];
        assert t in lists.lists[current].items;
        DistanceIs(value[t], due[t], period[t], now);
      }
    }

    lemma StillAstray(home: map<Timer, nat>, marks: map<Timer, bool>, reload: map<Timer, bool>, courses: map<Timer, Course>)
      requires Astray(marks, home, traced) && CarriedOver(home, lists.home, reload, courses, course, {})
      requires active.Keys == marks.Keys && forall u <- marks :: u !in home ==> active[u] == marks[u]
      ensures Astray(active, lists.home, traced) && lists.home.Keys !! traced
    {
      NoneAstray(marks, home, traced);
      CarriedKeys(home, lists.home, reload, courses, course, traced);
      AstrayStill(marks, home, active, lists.home, traced);
    }

    lemma NoTimers()
      requires Shape()
      ensures lists.home == map[] <==> lists.Items(current) == [] && lists.Items(CURRENT_1 + CURRENT_2 - current) == []
    {
      Listed(CURRENT_1);
      Listed(CURRENT_2);
      if lists.Items(CURRENT_1) == [] && lists.Items(CURRENT_2) == [] {
        assert forall t :: t !in lists.home;
      }
    }

    // prvProcessExpiredTimer between daemon steps.
    method ExpireHead(nextExpire: Tick, tickCount: Tick) returns (ghost t: Timer)
      requires Valid() && ActiveOk() && tickCount == TickOf(now) && lists.Items(current) != []
      requires lists.Items(current)[0] in value && nextExpire == value[lists.Items(current)[0]] <= tickCount
      modifies this
      ensures traced == old(traced)
      ensures Valid() && ActiveOk() && now == old(now) && AllGoOn()
      ensures period == old(period) && autoReload == old(autoReload) && Expired(t, now)
    {
      hide SortedBy;
      hide Matching;
      hide Marked;
      hide CarriedOver;
      hide FiledIn;
      hide Shelf.Valid;
      hide Astray;
      NoneAstray(active, lists.home, traced);
      t := ExpireCurrent(nextExpire, tickCount, now, traced);
      StillAstray(old(lists.home), old(active), autoReload, old(course));
    }

    lemma NeverOversleeps(nextExpire: Tick, listWasEmpty: bool)
      requires Valid() && listWasEmpty == (lists.Items(current) == [])
      requires !listWasEmpty ==> lists.Items(current)[0] in value && nextExpire == value[lists.Items(current)[0]]
      requires listWasEmpty ==> nextExpire == 0
      requires listWasEmpty || nextExpire > TickOf(now)
      ensures forall t <- lists.home :: now + Minus(nextExpire, TickOf(now)) <= due[t] && now < due[t]
    {
      forall t <- lists.home ensures now + Minus(nextExpire, TickOf(now)) <= due[t] && now < due[t] {
        Listed(current);
        if lists.home[t] == current {
          HeadFirst(t);
          NotYet(now, nextExpire, value[t], due[t], true);
        } else {
          NotYet(now, nextExpire, value[t], due[t], false);
        }
      }
    }

    lemma NotYet(n: nat, next: Tick, v: Tick, d: nat, inCurrent: bool)
      requires v == TickOf(d) && Epoch(d) == Epoch(n) + (if inCurrent then 0 else 1)
      requires if inCurrent then TickOf(n) < next <= v else next == 0 || next > TickOf(n)
      ensures n + Minus(next, TickOf(n)) <= d && n < d
    {
    }

    lemma HeadFirst(t: Timer)
      requires Shape() && t in lists.home && lists.home[t] == current
      ensures lists.Items(current) != [] && lists.Items(current)[0] in value
      ensures value[lists.Items(current)[0]] <= value[t]
    {
      var d := lists.Items(current);
      assert t in lists.lists[current].items;
      var i :| 0 <= i < |d| && d[i] == t;
      assert d[0] in d;
    }

    // prvInitialiseNewTimer
    method InitialiseNewTimer(t: Timer, newPeriod: Tick, reload: bool)
      requires Valid() && ActiveOk() && t !in period && newPeriod >= 1
      modifies this
      ensures traced == old(traced)
      ensures Valid() && ActiveOk() && now == old(now) && lists == old(lists)
      ensures period == old(period)[t := newPeriod] && autoReload == old(autoReload)[t := reload]
      ensures active == old(active)[t := false]
      ensures CarriedOver(old(lists.home), lists.home, old(autoReload), old(course), course, {t})
    {
      hide Shape;
      hide FiledIn;
      hide Matching;
      hide Marked;
      hide CarriedOver;
      ShapeSizes();
      NotListed(t);
      UpdateMinus(course, t, Course(0, 0));
      CarriedBut(lists.home, lists.home, autoReload, course, course[t := Course(0, 0)], t, {t});
      MarkedNew(active, lists.home, t, traced);
      InitialiseItem(t);
      SetAttributes(t, newPeriod, reload);
    }

    // vListInitialiseItem; the course of a timer that has never been started is empty.
    method InitialiseItem(t: Timer)
      requires Valid() && t !in period
      modifies this`value, this`due, this`course
      ensures Valid() && t in value && t in due && course == old(course)[t := Course(0, 0)]
    {
      NotListed(t);
      FreshItem(t);
      hide SortedBy;
      hide FiledIn;
      hide Matching;
      hide Shelf.Valid;
      value, due, course := value[t := 0], due[t := 0], course[t := Course(0, 0)];
    }

    lemma FreshItem(t: Timer)
      requires Valid() && t !in period && t !in lists.home && t !in lists.Items(CURRENT_1) && t !in lists.Items(CURRENT_2)
      ensures SortedBy(value[t := 0], lists.Items(CURRENT_1)) && SortedBy(value[t := 0], lists.Items(CURRENT_2))
      ensures FiledIn(lists.home, current, value[t := 0], due[t := 0], period, now)
      ensures Matching(lists.home, due[t := 0], course[t := Course(0, 0)], period)
    {
      SortedElsewhere(value, lists.Items(CURRENT_1), t, 0);
      SortedElsewhere(value, lists.Items(CURRENT_2), t, 0);
      hide SortedBy;
      hide NextExpiry;
    }

    method SetAttributes(t: Timer, newPeriod: Tick, reload: bool)
      requires Valid() && t !in period && newPeriod >= 1 && t in value && t in due && t in course
      modifies this`period, this`autoReload, this`active
      ensures Valid() && period == old(period)[t := newPeriod] && autoReload == old(autoReload)[t := reload]
      ensures active == old(active)[t := false]
    {
      NotListed(t);
      hide SortedBy;
      hide NextExpiry;
      hide Shelf.Valid;
      period, autoReload, active := period[t := newPeriod], autoReload[t := reload], active[t := false];
    }

    lemma NotListed(t: Timer)
      requires Shape() && t !in period
      ensures t !in lists.home && t !in lists.Items(CURRENT_1) && t !in lists.Items(CURRENT_2)
    {
      assert t !in lists.lists[CURRENT_1].items && t !in lists.lists[CURRENT_2].items;
    }

    // ---- commands

    // The timer starts a new course: it is marked active, and its first expiry is a period
    // after unbounded time c.
    method Launch(t: Timer, command: Tick, ghost c: nat, ghost n: nat) returns (processNow: bool)
      requires Valid() && t in period && t !in lists.home && now == n
      requires command == TickOf(c) && c <= n < c + WRAP
      modifies this
      ensures traced == old(traced)
      ensures Shape() && Filed(n) && OnCourse() && Only(t) && now == n && lastTime == old(lastTime)
      ensures period == old(period) && autoReload == old(autoReload) && current == old(current)
      ensures active == old(active)[t := true] && course[t] == Course(c, 0) && due[t] == c + period[t]
      ensures processNow <==> c + period[t] <= n
      ensures t in lists.home <==> !processNow
    {
      hide Shape;
      hide FiledIn;
      hide Matching;
      hide TickOf;
      hide Epoch;
      hide Plus;
      hide NextExpiry;
      ShapeSizes();
      BeginCourse(t, c);
      PlusTick(c, period[t]);
      ghost var home, dues, courses := lists.home, due, course;
      processNow := InsertTimerInActiveList(t, Plus(command, period[t]), lastTime, command, c, n);
      ShapeSizes();
      MatchingOnly(home, dues, courses, lists.home, due, course, period, t);
    }

    // The timer is marked active and has made no callback since unbounded time c.
    method BeginCourse(t: Timer, ghost c: nat)
      requires Shape() && Filed(now) && OnCourse() && t in period && t !in lists.home
      modifies this`active, this`course
      ensures Shape() && Filed(now) && OnCourse()
      ensures active == old(active)[t := true] && course == old(course)[t := Course(c, 0)]
      ensures course - {t} == old(course) - {t} && NextExpiry(course[t], period[t]) == c + period[t]
    {
      hide FiledIn;
      hide Matching;
      hide SortedBy;
      hide Shelf.Valid;
      FirstExpiry(c, period[t]);
      hide NextExpiry;
      active := active[t := true];
      course := course[t := Course(c, 0)];
      UpdateMinus(old(course), t, Course(c, 0));
      MatchingOnly(lists.home, due, old(course), lists.home, due, course, period, t);
    }

    lemma FirstExpiry(c: nat, p: nat)
      ensures NextExpiry(Course(c, 0), p) == c + p
    {
    }

    // tmrCOMMAND_START and tmrCOMMAND_RESET, given at unbounded time c and received at n.
    method StartTimer(t: Timer, command: Tick, ghost c: nat, ghost n: nat)
      requires Valid() && t in period && t !in lists.home && now == n
      requires command == TickOf(c) && c <= n < c + WRAP
      modifies this
      ensures traced == old(traced)
      ensures Valid() && Only(t) && now == n && period == old(period) && autoReload == old(autoReload)
      ensures course[t].base == c && active.Keys == old(active).Keys
      ensures active - {t} == old(active) - {t} && (active[t] <==> t in lists.home)
      ensures autoReload[t] ==> t in lists.home && n < due[t] <= n + period[t]
      ensures !autoReload[t] ==> (t in lists.home <==> n < c + period[t]) && course[t].fired == if n < c + period[t] then 0 else 1
    {
      hide FiledIn;
      hide TickOf;
      hide Epoch;
      hide Plus;
      hide SortedBy;
      hide Shelf.Valid;
      hide Matching;
      hide NextExpiry;
      hide Shape;
      ShapeSizes();
      FirstExpiry(c, period[t]);
      UpdateMinus(active, t, true);
      UpdateMinus(active[t := true], t, false);
      PlusTick(c, period[t]);
      var processNow := Launch(t, command, c, n);
      if processNow {
        Expire(t, Plus(command, period[t]), lastTime, c + period[t], n);
        ShapeSizes();
      }
    }

    // tmrCOMMAND_CHANGE_PERIOD: the new period runs from the time of processing.
    method ChangePeriodOf(t: Timer, newPeriod: Tick)
      requires Valid() && t in period && t !in lists.home && newPeriod >= 1
      modifies this
      ensures traced == old(traced)
      ensures Valid() && Only(t) && now == old(now) && autoReload == old(autoReload)
      ensures period == old(period)[t := newPeriod] && active == old(active)[t := true]
      ensures t in lists.home && course[t] == Course(now, 0) && due[t] == now + newPeriod
    {
      hide SortedBy;
      hide Shelf.Valid;
      period := period[t := newPeriod];
      var _ := Launch(t, lastTime, now, now);
    }

    // Take the timer out of its list, if it is in one.
    method Unlist(t: Timer)
      requires Valid() && t in period
      modifies this`lists
      ensures Valid() && t !in lists.home && lists.home - {t} == old(lists.home) - {t}
    {
      hide Matching;
      if t in lists.home {
        TakeOut(t);
        MatchingOnly(old(lists.home), due, course, lists.home, due, course, period, t);
      }
    }

    // vPortFree
    method Free(t: Timer)
      requires Valid() && t in period && t !in lists.home
      modifies this
      ensures traced == old(traced)
      ensures Valid() && now == old(now) && lists == old(lists) && active == old(active) - {t}
      ensures period == old(period) - {t} && autoReload == old(autoReload) - {t} && course == old(course)
    {
      KeysWithout(period, t);
      KeysWithout(autoReload, t);
      KeysWithout(active, t);
      FiledWithout(lists.home, current, value, due, period, now, t);
      MatchingWithout(lists.home, due, course, period, t);
      hide SortedBy;
      hide Shelf.Valid;
      hide Matching;
      hide FiledIn;
      period, autoReload, active := period - {t}, autoReload - {t}, active - {t};
    }

    // The timer a message is about leaves its list before the time is sampled.
    method Withdraw(t: Timer, tickCount: Tick, ghost n: nat)
      requires Valid() && ActiveOk() && t in period && tickCount == TickOf(n) && now <= n < now + WRAP
      modifies this
      ensures traced == old(traced)
      ensures Valid() && now == n && t !in lists.home
      ensures ActiveBut(traced + {t}) && Astray(active, lists.home, traced)
      ensures active.Keys == old(active).Keys && active[t] == old(active)[t]
      ensures period == old(period) && autoReload == old(autoReload)
      ensures CarriedOver(old(lists.home), lists.home, autoReload, old(course), course, {t})
    {
      hide Shape;
      hide Filed;
      hide OnCourse;
      hide Marked;
      hide CarriedOver;
      ShapeSizes();
      Unlist(t);
      MarkedApart(active, old(lists.home), lists.home, t, traced);
      AstrayWithout(old(lists.home), t);
      ghost var home, marks, courses := lists.home, active, course;
      var _ := SampleTimeNow(tickCount, n, traced + {t});
      StillAstray(home, marks, autoReload, courses);
      CarriedKeys(home, lists.home, autoReload, courses, course, {t});
      CarriedAfter(old(lists.home), home, lists.home, autoReload, courses, course, t);
    }

    lemma AstrayWithout(home: map<Timer, nat>, t: Timer)
      requires Astray(active, home, traced) && lists.home - {t} == home - {t} && t !in lists.home
      ensures Astray(active, lists.home, traced) && lists.home.Keys !! traced + {t}
    {
      forall u <- lists.home ensures u !in traced + {t} {
        assert u in home - {t};
      }
    }

    method MarkStopped(t: Timer)
      requires Valid() && t in active
      modifies this`active
      ensures Valid() && active == old(active)[t := false] && active - {t} == old(active) - {t}
    {
      hide FiledIn;
      hide Matching;
      UpdateMinus(active, t, false);
      active := active[t := false];
    }

    // The switch of prvProcessReceivedCommands, for a command given at unbounded time c.
    method Perform(m: Message, ghost c: nat)
      requires Valid() && m.timer in period && m.timer !in lists.home
      requires m.command == Start || m.command == Reset ==> m.value == TickOf(c) && c <= now < c + WRAP
      requires m.command == ChangePeriod ==> m.value >= 1
      modifies this
      ensures traced == old(traced)
      ensures Valid() && now == old(now)
      ensures m.timer in period <==> m.command != DeleteTimer
      ensures lists.home - {m.timer} == old(lists.home) - {m.timer}
      ensures active - {m.timer} == old(active) - {m.timer}
      ensures m.timer in active <==> m.command != DeleteTimer
      ensures m.command == StartDontTrace ==> active == old(active)
      ensures m.command != StartDontTrace && m.timer in active ==> (active[m.timer] <==> m.timer in lists.home)
      ensures m.command == Stop || m.command == DeleteTimer || m.command == StartDontTrace ==> m.timer !in lists.home
      ensures m.command == Start || m.command == Reset ==>
                && course[m.timer].base == c
                && (autoReload[m.timer] ==> m.timer in lists.home && now < due[m.timer])
                && (!autoReload[m.timer] ==>
                      && (m.timer in lists.home <==> now < c + period[m.timer])
                      && course[m.timer].fired == if now < c + period[m.timer] then 0 else 1)
      ensures m.command == ChangePeriod ==>
                && m.timer in lists.home && period[m.timer] == m.value && course[m.timer] == Course(now, 0)
      ensures period - {m.timer} == old(period) - {m.timer} && autoReload - {m.timer} == old(autoReload) - {m.timer}
      ensures course - {m.timer} == old(course) - {m.timer}
    {
      hide Shape;
      hide Filed;
      hide OnCourse;
      hide NextExpiry;
      ShapeSizes();
      var t := m.timer;
      match m.command
      case Start => StartTimer(t, m.value, c, now);
      case Reset => StartTimer(t, m.value, c, now);
      case Stop =>
        MarkStopped(t);
      case ChangePeriod =>
        UpdateMinus(active, t, true);
        UpdateMinus(period, t, m.value);
        ChangePeriodOf(t, m.value);
      case DeleteTimer => Free(t);
      case StartDontTrace =>
    }

    // The body of the loop of prvProcessReceivedCommands, for a command given at unbounded time
    // c and received at n.  Every timer stays marked active exactly when it is in a list, but
    // for the command kept for tracing: that takes a timer out of its list and leaves its mark.
    method ProcessCommand(m: Message, tickCount: Tick, ghost c: nat, ghost n: nat)
      requires Valid() && ActiveOk() && m.timer in period && tickCount == TickOf(n) && now <= n < now + WRAP
      requires m.command == Start || m.command == Reset ==> m.value == TickOf(c) && c <= n < c + WRAP
      requires m.command == ChangePeriod ==> m.value >= 1
      modifies this
      ensures Valid() && ActiveOk() && now == n
      ensures traced ==
              if m.command == StartDontTrace && old(active)[m.timer] then old(traced) + {m.timer}
              else old(traced) - {m.timer}
      ensures m.timer in period <==> m.command != DeleteTimer
      ensures m.command == Stop || m.command == DeleteTimer || m.command == StartDontTrace ==> m.timer !in lists.home
      ensures m.command == Start || m.command == Reset ==>
                && course[m.timer].base == c
                && (autoReload[m.timer] ==> m.timer in lists.home && n < due[m.timer])
                && (!autoReload[m.timer] ==>
                      && (m.timer in lists.home <==> n < c + period[m.timer])
                      && course[m.timer].fired == if n < c + period[m.timer] then 0 else 1)
      ensures m.command == ChangePeriod ==>
                && m.timer in lists.home && period[m.timer] == m.value && course[m.timer] == Course(n, 0)
      ensures period - {m.timer} == old(period) - {m.timer} && autoReload - {m.timer} == old(autoReload) - {m.timer}
      ensures CarriedOver(old(lists.home), lists.home, old(autoReload), old(course), course, {m.timer})
    {
      hide Shape;
      hide Filed;
      hide OnCourse;
      hide Marked;
      hide Astray;
      hide CarriedOver;
      Withdraw(m.timer, tickCount, n);
      ghost var marks, before, courses := active, lists.home, course;
      ShapeSizes();
      Perform(m, c);
      AstrayBut(marks, before, active, lists.home, m.timer, traced);
      MarkedAgain(marks, before, active, lists.home, m.timer, traced);
      CarriedThen(old(lists.home), before, lists.home, old(autoReload), old(course), courses, course, m.timer);
      NoteTraced(m.timer, m.command == StartDontTrace && old(active)[m.timer]);
    }

    ghost method NoteTraced(t: Timer, kept: bool)
      requires Valid()
      modifies this`traced
      ensures Valid() && traced == if kept then old(traced) + {t} else old(traced) - {t}
    {
      hide FiledIn;
      hide Matching;
      hide SortedBy;
      hide Shelf.Valid;
      traced := if kept then traced + {t} else traced - {t};
    }

    // prvProcessReceivedCommands
    method ProcessReceivedCommands(messages: seq<Message>, samples: seq<Tick>,
                                   ghost given: seq<nat>, ghost times: seq<nat>)
      requires Valid() && ActiveOk() && Deliverable(messages, samples, given, times, now)
      requires forall m <- messages :: m.timer in period
      modifies this
      ensures Valid() && ActiveOk() && now == Previous(times, old(now), |times|)
      ensures traced <= old(traced) + Traced(messages)
      ensures CarriedOver(old(lists.home), lists.home, old(autoReload), old(course), course, Commanded(messages))
      ensures AgreeBut(old(period), period, Commanded(messages)) && AgreeBut(old(autoReload), autoReload, Commanded(messages))
    {
      hide Shape;
      hide Filed;
      hide OnCourse;
      hide Marked;
      hide Astray;
      hide CarriedOver;
      hide AgreeBut;
      ShapeSizes();
      StartOfCommands(messages);
      var i := 0;
      while i < |messages|
        invariant i <= |messages| && Valid() && ActiveOk()
        invariant now == Previous(times, old(now), i) && traced <= old(traced) + Traced(messages[..i])
        invariant forall j :: i <= j < |messages| ==> messages[j].timer in period
        invariant CarriedOver(old(lists.home), lists.home, old(autoReload), old(course), course, Commanded(messages[..i]))
        invariant AgreeBut(old(period), period, Commanded(messages[..i]))
        invariant AgreeBut(autoReload, old(autoReload), Commanded(messages[..i]))
        invariant AgreeBut(old(autoReload), autoReload, Commanded(messages[..i]))
      {
        ghost var before, courses, periods, reloads := lists.home, course, period, autoReload;
        ghost var t, e := messages[i].timer, Commanded(messages[..i]);
        ReceiveOne(messages, samples, given, times, i, old(now));
        CommandedNext(messages, i);
        CarriedWiden(before, lists.home, reloads, old(autoReload), courses, course, {t}, e + {t}) by {
          AgreeMore(reloads, old(autoReload), e, t);
        }
        CarriedMore(old(lists.home), before, old(autoReload), old(course), courses, e, t);
        CarriedTrans(old(lists.home), before, lists.home, old(autoReload), old(course), courses, course, e + {t});
        AgreeStep(old(period), periods, period, e, t);
        AgreeStep(old(autoReload), reloads, autoReload, e, t);
        AgreeBack(old(autoReload), reloads, autoReload, e, t);
        i := i + 1;
      }
      assert messages[..i] == messages;
    }

    lemma StartOfCommands(messages: seq<Message>)
      requires forall u <- lists.home :: u in autoReload && u in course
      ensures CarriedOver(lists.home, lists.home, autoReload, course, course, Commanded(messages[..0]))
      ensures AgreeBut(period, period, Commanded(messages[..0])) && AgreeBut(autoReload, autoReload, Commanded(messages[..0]))
    {
      CarriedSame(lists.home, autoReload, course);
      CarriedWiden(lists.home, lists.home, autoReload, autoReload, course, course, {}, Commanded(messages[..0]));
    }

    method ReceiveOne(messages: seq<Message>, samples: seq<Tick>, ghost given: seq<nat>, ghost times: seq<nat>, i: nat,
                      ghost since: nat)
      requires Valid() && ActiveOk() && Deliverable(messages, samples, given, times, since)
      requires i < |messages| && now == Previous(times, since, i)
      requires forall j :: i <= j < |messages| ==> messages[j].timer in period
      modifies this
      ensures Valid() && ActiveOk() && now == times[i]
      ensures traced <= old(traced) + if messages[i].command == StartDontTrace then {messages[i].timer} else {}
      ensures forall j :: i < j < |messages| ==> messages[j].timer in period
      ensures var t := messages[i].timer;
              && period - {t} == old(period) - {t} && autoReload - {t} == old(autoReload) - {t}
              && CarriedOver(old(lists.home), lists.home, old(autoReload), old(course), course, {t})
    {
      hide Shape;
      hide Filed;
      hide OnCourse;
      hide Marked;
      hide Astray;
      hide CarriedOver;
      ghost var was := period;
      assert Acceptable(messages[i], given[i], times[i]) && samples[i] == TickOf(times[i]);
      assert Previous(times, since, i) <= times[i] < Previous(times, since, i) + WRAP;
      ProcessCommand(messages[i], samples[i], given[i], times[i]);
      forall j | i < j < |messages| ensures messages[j].timer in period {
        assert messages[j].timer != messages[i].timer ==>
            messages[j].timer in was - {messages[i].timer};
      }
    }

    // After every daemon step, an auto-reload timer whose callbacks are up to date has been
    // called back exactly once for each period since its start, whatever number of times the
    // tick count has wrapped.
    lemma NoDriftEver(t: Timer)
      requires Valid() && t in lists.home
      ensures Epoch(due[t]) == Epoch(now) <==> lists.home[t] == current
      ensures due[t] == course[t].base + (course[t].fired + 1) * period[t]
      ensures due[t] > now ==>
                course[t].base <= now && course[t].fired == Expirations(course[t].base, period[t], now)
    {
      NextFired(course[t], period[t]);
      if due[t] > now {
        NoDrift(course[t].base, period[t], course[t].fired, now);
      }
    }

    // ---- whole runs

    // One turn of prvTimerTask, as far as the commands.
    method TakeTurn(tick: Tick, ghost n: nat) returns (asleep: bool)
      requires Valid() && ActiveOk() && tick == TickOf(n) && now <= n < now + WRAP
      modifies this
      ensures traced == old(traced)
      ensures Valid() && ActiveOk() && now == n && AllGoOn()
      ensures period == old(period) && autoReload == old(autoReload)
      ensures asleep ==> forall t <- lists.home :: n < due[t]
      ensures !asleep && old(now) == n ==> Overdue(n) < old(Overdue(n))
    {
      hide Shape;
      hide FiledIn;
      hide Matching;
      hide Marked;
      hide Astray;
      hide CarriedOver;
      ghost var home, dues := lists.home, due;
      var nextExpire, listWasEmpty := GetNextExpireTime();
      var outcome;
      ghost var t;
      outcome, t := ProcessTimerOrBlockTask(nextExpire, listWasEmpty, tick, n);
      asleep := outcome.WaitFor?;
      if outcome == GoOn && old(now) == n {
        OneFewerDue(home, dues, t, n);
      }
    }

    lemma OneFewerDue(home: map<Timer, nat>, dues: map<Timer, nat>, t: Timer, n: nat)
      requires t in home && t in dues && dues[t] <= n && (t in lists.home ==> t in due && n < due[t])
      requires lists.home - {t} == home - {t} && due - {t} == dues - {t}
      ensures Overdue(n) < set u | u in home && u in dues && dues[u] <= n
    {
      var b := set u | u in home && u in dues && dues[u] <= n;
      assert t in b && t !in Overdue(n);
      forall u <- Overdue(n) ensures u in b {
        assert u in lists.home - {t} && u in due - {t};
        assert (due - {t})[u] == (dues - {t})[u];
      }
    }

    // While time stands still and no command comes in, the daemon goes to sleep after finitely
    // many turns; then every timer is up to date.
    method Settle(tick: Tick, ghost n: nat)
      requires Valid() && ActiveOk() && tick == TickOf(n) && now <= n < now + WRAP
      modifies this
      ensures Valid() && ActiveOk() && now == n && AllGoOn()
      ensures period == old(period) && autoReload == old(autoReload)
      ensures forall t <- lists.home :: t in due && n < due[t]
    {
      hide Valid;
      hide ActiveOk;
      hide CarriedOver;
      var asleep := TakeTurn(tick, n);
      AllDue();
      while !asleep
        invariant Valid() && ActiveOk() && now == n && AllGoOn()
        invariant period == old(period) && autoReload == old(autoReload)
        invariant asleep ==> forall t <- lists.home :: t in due && n < due[t]
        decreases !asleep, Overdue(n)
      {
        ghost var home, marks, courses := lists.home, active, course;
        asleep := TakeTurn(tick, n);
        GoOnTwice(old(lists.home), old(active), old(course), home, marks, courses);
        AllDue();
      }
    }

    lemma AllDue()
      requires Valid()
      ensures forall t <- lists.home :: t in due
    {
    }

    lemma GoOnTwice(h0: map<Timer, nat>, a0: map<Timer, bool>, c0: map<Timer, Course>,
                    h1: map<Timer, nat>, a1: map<Timer, bool>, c1: map<Timer, Course>)
      requires CarriedOver(h0, h1, autoReload, c0, c1, {}) && CarriedOver(h1, lists.home, autoReload, c1, course, {})
      requires a1.Keys == a0.Keys == active.Keys
      requires (forall u <- a0 :: u !in h0 ==> a1[u] == a0[u]) && (forall u <- a1 :: u !in h1 ==> active[u] == a1[u])
      ensures CarriedOver(h0, lists.home, autoReload, c0, course, {})
      ensures forall u <- a0 :: u !in h0 ==> active[u] == a0[u]
    {
      CarriedTrans(h0, h1, lists.home, autoReload, c0, c1, course, {});
      CarriedKeys(h0, h1, autoReload, c0, c1, {});
      hide CarriedOver;
    }

    // One happening of a run.
    method Happen(h: Happening, ghost given: nat, ghost time: nat) returns (asleep: bool)
      requires Valid() && ActiveOk() && PlausibleAt(h, given, time, now, period.Keys)
      modifies this
      ensures Valid() && ActiveOk() && now == time
      ensures period.Keys == KnownAfter(h, old(period).Keys) && traced <= old(traced) + TracedIn([h])
      ensures CarriedOver(old(lists.home), lists.home, old(autoReload), old(course), course, About(h))
      ensures AgreeBut(old(autoReload), autoReload, About(h)) && AgreeBut(old(period), period, About(h))
      ensures Starts(h) ==> InTime(lists.home, autoReload, course, h.message.timer, StartTime(h, given, time))
      ensures asleep ==> h.Turn? && forall t <- lists.home :: time < due[t]
    {
      hide Shape;
      hide FiledIn;
      hide Matching;
      hide Marked;
      hide Astray;
      hide CarriedOver;
      ShapeSizes();
      asleep := false;
      match h
      case Creation(t, p, reload) => InitialiseNewTimer(t, p, reload);
      case Turn(tick) => asleep := TakeTurn(tick, time);
      case Received(m, tick) =>
        ProcessCommand(m, tick, given, time);
        ShapeSizes();
        AgreeWithout(old(autoReload), autoReload, m.timer);
        AgreeWithout(old(period), period, m.timer);
        KeysBut(old(period), period, m.timer);
    }

    lemma KeysBut(a: map<Timer, Tick>, b: map<Timer, Tick>, t: Timer)
      requires a - {t} == b - {t} && t in a
      ensures b.Keys == if t in b then a.Keys else a.Keys - {t}
    {
      assert forall u :: u != t ==> (u in a <==> u in a - {t}) && (u in b <==> u in b - {t});
    }

    // Any run.  An auto-reload timer that was started at unbounded time c, and of which nothing
    // has been commanded since, is due at c + (k + 1) * period after k callbacks, in the list of
    // that epoch; and whenever the daemon goes to sleep, k is the number of periods since c.  A
    // one-shot timer is due at c + period until it has been called back, and then never again.
    method Run(hs: seq<Happening>, ghost given: seq<nat>, ghost times: seq<nat>) returns (asleep: bool)
      requires Valid() && ActiveOk() && Plausible(hs, given, times, now, period.Keys)
      modifies this
      ensures Valid() && ActiveOk() && now == Previous(times, old(now), |times|)
      ensures traced <= old(traced) + TracedIn(hs)
      ensures forall i :: 0 <= i < |hs| && StartedAt(hs, i, |hs|) ==>
                var t := hs[i].message.timer;
                OnTime(t, StartTime(hs[i], given[i], times[i]), asleep)
    {
      hide Shape;
      hide FiledIn;
      hide Matching;
      hide Marked;
      hide Astray;
      hide OnTime;
      hide Known;
      hide Punctual;
      hide Plausible;
      ghost var known := period.Keys;
      ghost var before := traced;
      asleep := false;
      RunBegins(hs, given, times, known);
      var k := 0;
      while k < |hs|
        invariant k <= |hs| && Valid() && ActiveOk() && Progress(hs, given, times, k, old(now), known, asleep)
        invariant traced <= before + TracedIn(hs[..k])
      {
        asleep := RunOne(hs, given, times, k, old(now), known);
        TracedNext(hs, k);
        k := k + 1;
      }
      assert hs[..|hs|] == hs;
      RunEnds(hs, given, times, old(now), known, asleep);
    }

    // The first k happenings are over.
    ghost predicate Progress(hs: seq<Happening>, given: seq<nat>, times: seq<nat>, k: nat, since: nat,
                             known: set<Timer>, asleep: bool)
      requires k <= |hs|
      reads this
    {
      && Plausible(hs, given, times, since, known) && now == Previous(times, since, k)
      && period.Keys == Known(hs[..k], known)
      && Punctual(hs, given, times, k, lists.home, autoReload, course)
      && (asleep ==> forall t <- lists.home :: t in due && now < due[t])
    }

    method RunOne(hs: seq<Happening>, ghost given: seq<nat>, ghost times: seq<nat>, k: nat, ghost since: nat,
                  ghost known: set<Timer>)
        returns (asleep: bool)
      requires Valid() && ActiveOk() && k < |hs| && Progress(hs, given, times, k, since, known, false)
      modifies this
      ensures Valid() && ActiveOk() && Progress(hs, given, times, k + 1, since, known, asleep)
      ensures traced <= old(traced) + TracedIn([hs[k]])
    {
      hide Shape;
      hide FiledIn;
      hide Matching;
      hide Marked;
      hide Astray;
      hide CarriedOver;
      hide AgreeBut;
      hide Known;
      hide Punctual;
      hide Plausible;
      ghost var home, reload, courses := lists.home, autoReload, course;
      PlausibleNow(hs, given, times, since, known, k);
      KnownNext(hs, k, known);
      ShapeSizes();
      asleep := Happen(hs[k], given[k], times[k]);
      ShapeSizes();
      PunctualNext(hs, given, times, k, home, lists.home, reload, autoReload, courses, course);
    }

    lemma RunBegins(hs: seq<Happening>, given: seq<nat>, times: seq<nat>, known: set<Timer>)
      requires Plausible(hs, given, times, now, known) && known == period.Keys
      ensures Progress(hs, given, times, 0, now, known, false)
    {
    }

    lemma RunEnds(hs: seq<Happening>, given: seq<nat>, times: seq<nat>, since: nat, known: set<Timer>, asleep: bool)
      requires Valid() && Progress(hs, given, times, |hs|, since, known, asleep)
      ensures |hs| == |given| == |times| && now == Previous(times, since, |times|)
      ensures forall i :: 0 <= i < |hs| && StartedAt(hs, i, |hs|) ==>
                var t := hs[i].message.timer;
                OnTime(t, StartTime(hs[i], given[i], times[i]), asleep)
    {
      hide Shape;
      hide FiledIn;
      hide Matching;
      hide OnTime;
      hide Known;
      forall i | 0 <= i < |hs| && StartedAt(hs, i, |hs|)
        ensures var t := hs[i].message.timer;
                OnTime(t, StartTime(hs[i], given[i], times[i]), asleep)
      {
        OnTimeNow(hs[i].message.timer, StartTime(hs[i], given[i], times[i]), asleep);
      }
    }

    // The timer's next expiry is the one after its callbacks since c, and if it is up to date
    // these are as many as periods have passed.
    ghost predicate Periodic(t: Timer, c: nat, upToDate: bool)
      reads this
    {
      && t in lists.home && t in due && t in course && t in period && course[t].base == c
      && due[t] == c + (course[t].fired + 1) * period[t]
      && (lists.home[t] == current <==> Epoch(due[t]) == Epoch(now))
      && (upToDate || now < due[t] ==> c <= now && period[t] > 0 && course[t].fired == Expirations(c, period[t], now))
    }

    // A one-shot timer waits for its only expiry, or has been called back for it.
    ghost predicate Once(t: Timer, c: nat, upToDate: bool)
      reads this
    {
      && t in course && course[t] == Course(c, if t in lists.home then 0 else 1)
      && (t in lists.home ==> t in due && t in period && due[t] == c + period[t] && (upToDate ==> now < due[t]))
    }

    ghost predicate OnTime(t: Timer, c: nat, upToDate: bool)
      reads this
    {
      t in autoReload && if autoReload[t] then Periodic(t, c, upToDate) else Once(t, c, upToDate)
    }

    lemma OnTimeNow(t: Timer, c: nat, upToDate: bool)
      requires Valid() && InTime(lists.home, autoReload, course, t, c)
      requires upToDate ==> forall u <- lists.home :: u in due && now < due[u]
      ensures OnTime(t, c, upToDate)
    {
      if t in lists.home {
        NoDriftEver(t);
      }
    }

    // Any run, and then as many turns as it takes the daemon to go to sleep: after that every
    // timer started and not commanded since is up to date, be it never so many turns behind.
    method RunToRest(hs: seq<Happening>, ghost given: seq<nat>, ghost times: seq<nat>, tick: Tick, ghost n: nat)
      requires Valid() && ActiveOk() && Plausible(hs, given, times, now, period.Keys)
      requires |hs| == |given| == |times| && tick == TickOf(n)
      requires Previous(times, now, |times|) <= n < Previous(times, now, |times|) + WRAP
      modifies this
      ensures Valid() && ActiveOk() && now == n && forall t <- lists.home :: t in due && n < due[t]
      ensures forall i :: 0 <= i < |hs| && StartedAt(hs, i, |hs|) ==>
                OnTime(hs[i].message.timer, StartTime(hs[i], given[i], times[i]), true)
    {
      hide Shape;
      hide FiledIn;
      hide Matching;
      hide Marked;
      hide Astray;
      hide Known;
      hide Plausible;
      hide CarriedOver;
      var asleep := Run(hs, given, times);
      ghost var home, courses, reload := lists.home, course, autoReload;
      forall i | 0 <= i < |hs| && StartedAt(hs, i, |hs|)
        ensures InTime(home, reload, courses, hs[i].message.timer, StartTime(hs[i], given[i], times[i]))
      {
        assert OnTime(hs[i].message.timer, StartTime(hs[i], given[i], times[i]), asleep);
      }
      hide OnTime;
      Settle(tick, n);
      forall i | 0 <= i < |hs| && StartedAt(hs, i, |hs|)
        ensures OnTime(hs[i].message.timer, StartTime(hs[i], given[i], times[i]), true)
      {
        StillInTime(home, lists.home, reload, courses, course, hs[i].message.timer, StartTime(hs[i], given[i], times[i]));
        OnTimeNow(hs[i].message.timer, StartTime(hs[i], given[i], times[i]), true);
      }
    }
  }
}
