// What the timer daemon decides and keeps, as values: where an expiry is filed, the courses of
// the timers against unbounded time, and how lists, courses and marks carry over from one state
// to the next.
module TimerCourses {

  import opened ListModel
  import opened Ticks

  type Timer = nat

  datatype Filing = ProcessNow | Overflow | Current

  // The comparisons of prvInsertTimerInActiveList.
  function Placing(expiry: Tick, now: Tick, command: Tick, period: Tick): Filing {
    if expiry <= now then
      if Minus(now, command) >= period then ProcessNow else Overflow
    else if now < command && expiry >= command then ProcessNow
    else Current
  }

  // The expiry is due exactly when unbounded time c + period is at or before n; otherwise the
  // timer goes to the list of the epoch it expires in.
  lemma PlacingExact(c: nat, n: nat, period: Tick)
    requires c <= n < c + WRAP && period >= 1
    ensures var f := Placing(TickOf(c + period), TickOf(n), TickOf(c), period);
            && (f == ProcessNow <==> c + period <= n)
            && (f == Current ==> Epoch(c + period) == Epoch(n))
            && (f == Overflow ==> Epoch(c + period) == Epoch(n) + 1)
  {
    assert c == Epoch(c) * WRAP + TickOf(c);
    assert n == Epoch(n) * WRAP + TickOf(n);
  }

  // However old the command is, the daemon takes the time since it modulo the range of the tick
  // count.  So it decides rightly whether the expiry is due exactly when the command is less
  // than a turn of the count old, or what is left of its age reaches the period by itself.
  lemma PlacingAges(c: nat, n: nat, period: Tick)
    requires c <= n && period >= 1
    ensures var processed := Placing(TickOf(c + period), TickOf(n), TickOf(c), period) == ProcessNow;
            && (processed <==> (n - c) % WRAP >= period)
            && ((processed <==> c + period <= n) <==> n - c < WRAP || (n - c) % WRAP >= period)
  {
    var m := c + (n - c) % WRAP;
    assert TickOf(m) == TickOf(n);
    PlacingExact(c, m, period);
  }

  // A timer overdue by almost a full turn is taken to be due in the future.
  lemma PlacingStale()
    ensures 5 + 10 <= 5 + WRAP && Placing(TickOf(5 + 10), TickOf(5 + WRAP), TickOf(5), 10) != ProcessNow
  {
    PlacingAges(5, 5 + WRAP, 10);
  }

  // The number of expirations c + period, c + 2 * period, ... at or before n.
  function Expirations(c: nat, period: nat, n: nat): nat
    requires period > 0 && c <= n
  {
    (n - c) / period
  }

  // k callbacks, and the next expiry c + (k + 1) * period still to come but the last one not:
  // k is the number of expirations so far, however often the tick count wrapped.
  lemma NoDrift(c: nat, period: nat, k: nat, n: nat)
    requires period > 0 && c + k * period <= n < c + (k + 1) * period
    ensures k == Expirations(c, period, n)
  {
    var q, r := (n - c) / period, (n - c) % period;
    assert n - c == q * period + r;
    assert (k + 1) * period == k * period + period;
    assert (q + 1) * period == q * period + period;
    if q < k {
      Times(q + 1, k, period);
      assert false;
    } else if q > k {
      Times(k + 1, q, period);
      assert false;
    }
  }

  lemma {:induction false} Times(a: nat, b: nat, p: nat)
    requires a <= b
    ensures a * p <= b * p
    decreases b
  {
    if a < b {
      Times(a, b - 1, p);
      assert b * p == (b - 1) * p + p;
    }
  }

  // What a timer has done since the command that started it: the unbounded time of the command
  // and the callbacks made since.
  datatype Course = Course(base: nat, fired: nat)

  function NextExpiry(c: Course, period: nat): nat { c.base + (c.fired + 1) * period }

  lemma NextFired(c: Course, period: nat)
    ensures NextExpiry(c.(fired := c.fired + 1), period) == NextExpiry(c, period) + period
    ensures NextExpiry(c, period) - period == c.base + c.fired * period
  {
    assert (c.fired + 2) * period == (c.fired + 1) * period + period;
    assert (c.fired + 1) * period == c.fired * period + period;
  }

  ghost predicate Matching(home: map<Timer, nat>, due: map<Timer, nat>, course: map<Timer, Course>,
                           period: map<Timer, Tick>)
  {
    forall t <- home :: t in due && t in course && t in period && due[t] == NextExpiry(course[t], period[t])
  }

  // At unbounded time n every listed timer is filed by the epoch of its next expiry, and its
  // last expiry, or its start, is not in the future.
  ghost predicate FiledIn(home: map<Timer, nat>, current: nat, value: map<Timer, Tick>,
                          due: map<Timer, nat>, period: map<Timer, Tick>, n: nat)
  {
    forall t <- home :: t in value && t in due && t in period &&
                        FiledAt(home[t] == current, value[t], due[t], period[t], n)
  }

  predicate FiledAt(inCurrent: bool, value: Tick, due: nat, period: Tick, n: nat) {
    && value == TickOf(due)
    && Epoch(due) == Epoch(n) + (if inCurrent then 0 else 1)
    && due <= n + period
  }

  // How far off an expiry of the current epoch is, and how far the next wrap.
  lemma DistanceIs(v: Tick, due: nat, period: Tick, n: nat)
    ensures TickOf(n + Minus(0, TickOf(n))) == 0
    ensures FiledAt(true, v, due, period, n) && v > TickOf(n) ==> due == n + Minus(v, TickOf(n))
  {
  }

  lemma FiledWithout(home: map<Timer, nat>, current: nat, value: map<Timer, Tick>,
                     due: map<Timer, nat>, period: map<Timer, Tick>, n: nat, t: Timer)
    requires FiledIn(home, current, value, due, period, n) && t !in home
    ensures FiledIn(home, current, value, due, period - {t}, n)
  {
  }

  lemma MatchingWithout(home: map<Timer, nat>, due: map<Timer, nat>, course: map<Timer, Course>,
                        period: map<Timer, Tick>, t: Timer)
    requires Matching(home, due, course, period) && t !in home
    ensures Matching(home, due, course, period - {t})
  {
    hide NextExpiry;
  }

  // The tick count reads less than at the last sample exactly when it has wrapped since.
  lemma WrapSeen(a: nat, b: nat)
    requires a <= b < a + WRAP
    ensures if TickOf(b) < TickOf(a) then Epoch(b) == Epoch(a) + 1 else Epoch(b) == Epoch(a)
    ensures var last := Epoch(a) * WRAP + MAX_DELAY;
            && a <= last && Epoch(last) == Epoch(a) && TickOf(last) == MAX_DELAY
            && Epoch(last + 1) == Epoch(a) + 1 && (TickOf(b) < TickOf(a) ==> last + 1 <= b)
  {
  }

  ghost predicate Marked(active: map<Timer, bool>, home: map<Timer, nat>, except: set<Timer>) {
    forall t <- active :: t !in except ==> (active[t] <==> t in home)
  }

  lemma MatchingOnly(home: map<Timer, nat>, due: map<Timer, nat>, course: map<Timer, Course>,
                     home': map<Timer, nat>, due': map<Timer, nat>, course': map<Timer, Course>,
                     period: map<Timer, Tick>, t: Timer)
    requires Matching(home, due, course, period)
    requires home' - {t} == home - {t} && due' - {t} == due - {t} && course' - {t} == course - {t}
    requires t in home' ==> t in due' && t in course' && t in period && due'[t] == NextExpiry(course'[t], period[t])
    ensures Matching(home', due', course', period)
  {
    hide NextExpiry;
    forall u <- home'
      ensures u in due' && u in course' && u in period && due'[u] == NextExpiry(course'[u], period[u])
    {
      if u != t {
        assert u in home' - {t};
        assert u in due - {t} && u in course - {t};
        assert due'[u] == (due' - {t})[u] && due[u] == (due - {t})[u];
        assert course'[u] == (course' - {t})[u] && course[u] == (course - {t})[u];
      }
    }
  }

  lemma MarkedOnly(active: map<Timer, bool>, home: map<Timer, nat>, active': map<Timer, bool>,
                   home': map<Timer, nat>, t: Timer, except: set<Timer>)
    requires Marked(active, home, except) && active'.Keys == active.Keys
    requires home' - {t} == home - {t} && active' - {t} == active - {t}
    requires t in active' && t !in except ==> (active'[t] <==> t in home')
    ensures Marked(active', home', except)
  {
    forall u <- active' | u !in except ensures active'[u] <==> u in home' {
      if u != t {
        assert u in home' - {t} <==> u in home - {t};
        assert active'[u] == (active' - {t})[u] && active[u] == (active - {t})[u];
      }
    }
  }

  lemma MarkedApart(active: map<Timer, bool>, home: map<Timer, nat>, home': map<Timer, nat>, t: Timer, except: set<Timer>)
    requires Marked(active, home, except) && home' - {t} == home - {t}
    ensures Marked(active, home', except + {t})
  {
    forall u <- active | u !in except + {t} ensures active[u] <==> u in home' {
      assert u in home' - {t} <==> u in home - {t};
    }
  }

  lemma MarkedAgain(active: map<Timer, bool>, home: map<Timer, nat>, active': map<Timer, bool>,
                    home': map<Timer, nat>, t: Timer, except: set<Timer>)
    requires Marked(active, home, except + {t}) && active' - {t} == active - {t} && home' - {t} == home - {t}
    ensures Marked(active', home', except + {t})
    ensures (t in active' ==> (active'[t] <==> t in home')) ==> Marked(active', home', except - {t})
  {
    forall u <- active' | u !in except + {t} ensures active'[u] <==> u in home' {
      assert u in active' - {t};
      assert u in home' - {t} <==> u in home - {t};
      assert active'[u] == (active' - {t})[u] && active[u] == (active - {t})[u];
    }
  }

  // These timers are marked active although they are in no list.
  ghost predicate Astray(active: map<Timer, bool>, home: map<Timer, nat>, traced: set<Timer>) {
    forall t <- traced :: t in active && active[t] && t !in home
  }

  lemma MarkedNew(active: map<Timer, bool>, home: map<Timer, nat>, t: Timer, except: set<Timer>)
    requires Marked(active, home, except) && Astray(active, home, except) && t !in home && t !in active
    ensures Marked(active[t := false], home, except) && Astray(active[t := false], home, except)
  {
  }

  lemma NoneAstray(active: map<Timer, bool>, home: map<Timer, nat>, traced: set<Timer>)
    requires Astray(active, home, traced)
    ensures home.Keys !! traced && traced <= active.Keys
  {
  }

  lemma AstrayStill(active: map<Timer, bool>, home: map<Timer, nat>, active': map<Timer, bool>,
                    home': map<Timer, nat>, traced: set<Timer>)
    requires Astray(active, home, traced) && home'.Keys <= home.Keys && active'.Keys == active.Keys
    requires forall u <- active :: u !in home ==> active'[u] == active[u]
    ensures Astray(active', home', traced)
  {
  }

  lemma AstrayBut(active: map<Timer, bool>, home: map<Timer, nat>, active': map<Timer, bool>,
                  home': map<Timer, nat>, t: Timer, traced: set<Timer>)
    requires Astray(active, home, traced) && home' - {t} == home - {t} && active' - {t} == active - {t}
    ensures Astray(active', home', traced - {t})
    ensures t in active' && active'[t] && t !in home' ==> Astray(active', home', traced + {t})
  {
    forall u <- traced - {t} ensures u in active' && active'[u] && u !in home' {
      assert u in active - {t} && (active' - {t})[u] == (active - {t})[u];
      assert u !in home - {t};
    }
  }

  lemma ListedIsMarked(active: map<Timer, bool>, home: map<Timer, nat>, t: Timer, except: set<Timer>)
    requires Marked(active, home, except) && t in home && t in active && t !in except
    ensures active[t]
  {
  }

  lemma KeysWithout<T>(m: map<Timer, T>, t: Timer)
    ensures (m - {t}).Keys == m.Keys - {t}
  {
  }

  lemma UpdateMinus<T>(m: map<Timer, T>, t: Timer, v: T)
    ensures m[t := v] - {t} == m - {t}
  {
  }

  // ---- what a step of the daemon leaves of a timer it is not told about

  // A course goes on: it keeps its start, callbacks are only added, an auto-reload timer stays
  // listed, and a one-shot timer leaves its list with one callback.
  predicate GoesOn(listed: bool, reload: bool, a: Course, b: Course) {
    && b.base == a.base && b.fired >= a.fired
    && (reload ==> listed)
    && (!reload ==> b.fired == a.fired + (if listed then 0 else 1))
  }

  // The same of all timers but the excepted ones; those in no list are left alone.
  ghost predicate CarriedOver(home: map<Timer, nat>, home': map<Timer, nat>, reload: map<Timer, bool>,
                              course: map<Timer, Course>, course': map<Timer, Course>, except: set<Timer>)
  {
    && (forall t <- home' :: t in home || t in except)
    && (forall t <- home :: t !in except ==>
          t in reload && t in course && t in course' && GoesOn(t in home', reload[t], course[t], course'[t]))
    && (forall t <- course :: t !in home && t !in except ==> t in course' && course'[t] == course[t])
  }

  lemma CarriedTrans(h0: map<Timer, nat>, h1: map<Timer, nat>, h2: map<Timer, nat>, reload: map<Timer, bool>,
                     c0: map<Timer, Course>, c1: map<Timer, Course>, c2: map<Timer, Course>, except: set<Timer>)
    requires CarriedOver(h0, h1, reload, c0, c1, except) && CarriedOver(h1, h2, reload, c1, c2, except)
    ensures CarriedOver(h0, h2, reload, c0, c2, except)
  {
    forall t <- h0 | t !in except
      ensures t in reload && t in c0 && t in c2 && GoesOn(t in h2, reload[t], c0[t], c2[t])
    {
      assert GoesOn(t in h1, reload[t], c0[t], c1[t]);
      if t in h1 {
        assert GoesOn(t in h2, reload[t], c1[t], c2[t]);
      } else {
        assert t in c1 && c2[t] == c1[t];
      }
    }
  }

  lemma CarriedSame(home: map<Timer, nat>, reload: map<Timer, bool>, course: map<Timer, Course>)
    requires forall t <- home :: t in reload && t in course
    ensures CarriedOver(home, home, reload, course, course, {})
  {
  }

  // Two maps agree on the timers that are not excepted.
  ghost predicate AgreeBut<T(!new)>(a: map<Timer, T>, b: map<Timer, T>, except: set<Timer>) {
    forall t <- a :: t !in except ==> t in b && b[t] == a[t]
  }

  lemma AgreeWithout<T(!new)>(a: map<Timer, T>, b: map<Timer, T>, t: Timer)
    requires a - {t} == b - {t}
    ensures AgreeBut(a, b, {t}) && AgreeBut(b, a, {t})
  {
    forall u <- a | u != t ensures u in b && b[u] == a[u] {
      assert u in a - {t};
      assert a[u] == (a - {t})[u] && b[u] == (b - {t})[u];
    }
    forall u <- b | u != t ensures u in a && b[u] == a[u] {
      assert u in b - {t};
      assert a[u] == (a - {t})[u] && b[u] == (b - {t})[u];
    }
  }

  // Exceptions may be added, and do not depend on what becomes of the excepted.
  lemma CarriedWiden(home: map<Timer, nat>, home': map<Timer, nat>, reload: map<Timer, bool>, reload': map<Timer, bool>,
                     course: map<Timer, Course>, course': map<Timer, Course>, except: set<Timer>, more: set<Timer>)
    requires CarriedOver(home, home', reload, course, course', except) && except <= more && AgreeBut(reload, reload', more)
    ensures CarriedOver(home, home', reload', course, course', more)
  {
    hide GoesOn;
  }

  // Only t has changed.
  lemma CarriedBut(home: map<Timer, nat>, home': map<Timer, nat>, reload: map<Timer, bool>,
                   course: map<Timer, Course>, course': map<Timer, Course>, t: Timer, except: set<Timer>)
    requires forall u <- home :: u in reload && u in course
    requires home' - {t} == home - {t} && course' - {t} == course - {t}
    requires t in except ||
             (t in home && t in course' && GoesOn(t in home', reload[t], course[t], course'[t]))
    ensures CarriedOver(home, home', reload, course, course', except)
  {
    forall u <- home' ensures u in home || u in except {
      assert u != t ==> u in home - {t};
    }
    forall u <- course | u != t ensures u in course' && course'[u] == course[u] {
      assert u in course' - {t};
      assert course'[u] == (course' - {t})[u] && course[u] == (course - {t})[u];
    }
    forall u <- home | u != t ensures u in home' {
      assert u in home' - {t};
    }
  }

  // xMessageID; the variants from interrupts are handled alike.
  datatype Command = StartDontTrace | Start | Reset | Stop | ChangePeriod | DeleteTimer

  datatype Message = Message(timer: Timer, command: Command, value: Tick)

  // The messages in the order received, with the unbounded times they were given and received
  // at and the tick counts sampled.  No message follows the deletion of its timer.
  predicate Deliverable(messages: seq<Message>, samples: seq<Tick>, given: seq<nat>, times: seq<nat>, now: nat) {
    && |messages| == |samples| == |given| == |times|
    && (forall i :: 0 <= i < |messages| ==> samples[i] == TickOf(times[i]) && Acceptable(messages[i], given[i], times[i]))
    && (forall i :: 0 <= i < |times| ==> Previous(times, now, i) <= times[i] < Previous(times, now, i) + WRAP)
    && (forall i, j :: 0 <= i < j < |messages| && messages[i].command == DeleteTimer ==>
          messages[j].timer != messages[i].timer)
  }

  function Previous(times: seq<nat>, now: nat, i: nat): nat
    requires i <= |times|
  {
    if i == 0 then now else times[i - 1]
  }

  predicate Acceptable(m: Message, given: nat, time: nat) {
    && (m.command == Start || m.command == Reset ==> m.value == TickOf(given) && given <= time < given + WRAP)
    && (m.command == ChangePeriod ==> m.value >= 1)
  }

  // One timer has expired and nothing else has changed.
  lemma AfterExpiry(home: map<Timer, nat>, home': map<Timer, nat>, active: map<Timer, bool>, active': map<Timer, bool>,
                    course: map<Timer, Course>, course': map<Timer, Course>, reload: map<Timer, bool>, t: Timer,
                    except: set<Timer>)
    requires Marked(active, home, except) && home.Keys !! except && t in home && t in active
    requires forall u <- home :: u in reload && u in course
    requires home' - {t} == home - {t} && course' - {t} == course - {t} && (t in home' <==> reload[t])
    requires t in course' && GoesOn(t in home', reload[t], course[t], course'[t])
    requires active' == if reload[t] then active else active[t := false]
    ensures Marked(active', home', except) && active'.Keys == active.Keys
    ensures forall u <- active :: u !in home ==> active'[u] == active[u]
    ensures CarriedOver(home, home', reload, course, course', {})
  {
    hide GoesOn;
    hide CarriedOver;
    hide Marked;
    CarriedBut(home, home', reload, course, course', t, {});
    UpdateMinus(active, t, false);
    ListedIsMarked(active, home, t, except);
    MarkedOnly(active, home, active', home', t, except);
  }

  // After a step that carries all timers over, only t changes.
  lemma CarriedThen(h0: map<Timer, nat>, h1: map<Timer, nat>, h2: map<Timer, nat>, reload: map<Timer, bool>,
                    c0: map<Timer, Course>, c1: map<Timer, Course>, c2: map<Timer, Course>, t: Timer)
    requires CarriedOver(h0, h1, reload, c0, c1, {t}) && h2 - {t} == h1 - {t} && c2 - {t} == c1 - {t}
    requires forall u <- h1 :: u in reload && u in c1
    ensures CarriedOver(h0, h2, reload, c0, c2, {t})
  {
    hide CarriedOver;
    CarriedBut(h1, h2, reload, c1, c2, t, {t});
    CarriedTrans(h0, h1, h2, reload, c0, c1, c2, {t});
  }

  // Only t changes, and then a step carries all timers over.
  lemma CarriedAfter(h0: map<Timer, nat>, h1: map<Timer, nat>, h2: map<Timer, nat>, reload: map<Timer, bool>,
                     c1: map<Timer, Course>, c2: map<Timer, Course>, t: Timer)
    requires CarriedOver(h1, h2, reload, c1, c2, {}) && h1 - {t} == h0 - {t}
    requires forall u <- h0 :: u in reload && u in c1
    ensures CarriedOver(h0, h2, reload, c1, c2, {t})
  {
    hide CarriedOver;
    CarriedBut(h0, h1, reload, c1, c1, t, {t});
    CarriedWiden(h1, h2, reload, reload, c1, c2, {}, {t});
    CarriedTrans(h0, h1, h2, reload, c1, c1, c2, {t});
  }

  // ---- a series of commands

  // The timers the messages are about.
  ghost function Commanded(messages: seq<Message>): set<Timer> { set m <- messages :: m.timer }

  // Those that get the command kept for tracing.
  ghost function Traced(messages: seq<Message>): set<Timer> {
    set m <- messages | m.command == StartDontTrace :: m.timer
  }

  lemma CommandedNext(messages: seq<Message>, i: nat)
    requires i < |messages|
    ensures Commanded(messages[..i + 1]) == Commanded(messages[..i]) + {messages[i].timer}
    ensures Traced(messages[..i + 1]) ==
            Traced(messages[..i]) + if messages[i].command == StartDontTrace then {messages[i].timer} else {}
  {
    assert messages[..i + 1] == messages[..i] + [messages[i]];
  }

  lemma AgreeMore<T(!new)>(a: map<Timer, T>, b: map<Timer, T>, e: set<Timer>, t: Timer)
    requires AgreeBut(a, b, e)
    ensures AgreeBut(a, b, e + {t})
  {
  }

  lemma CarriedMore(home: map<Timer, nat>, home': map<Timer, nat>, reload: map<Timer, bool>,
                    course: map<Timer, Course>, course': map<Timer, Course>, e: set<Timer>, t: Timer)
    requires CarriedOver(home, home', reload, course, course', e)
    ensures CarriedOver(home, home', reload, course, course', e + {t})
  {
    CarriedWiden(home, home', reload, reload, course, course', e, e + {t});
  }

  lemma AgreeStep<T(!new)>(a: map<Timer, T>, b: map<Timer, T>, c: map<Timer, T>, e: set<Timer>, t: Timer)
    requires AgreeBut(a, b, e) && c - {t} == b - {t}
    ensures AgreeBut(a, c, e + {t})
  {
    AgreeWithout(b, c, t);
  }

  lemma AgreeBack<T(!new)>(a: map<Timer, T>, b: map<Timer, T>, c: map<Timer, T>, e: set<Timer>, t: Timer)
    requires AgreeBut(b, a, e) && c - {t} == b - {t}
    ensures AgreeBut(c, a, e + {t})
  {
    AgreeWithout(b, c, t);
  }

  // ---- whole runs of the daemon

  // What happens in a run, at the tick counts sampled: timers are created, the daemon turns
  // round its loop once, or it receives a command.
  datatype Happening =
    | Creation(timer: Timer, newPeriod: Tick, reload: bool)
    | Turn(tick: Tick)
    | Received(message: Message, tick: Tick)

  // The timers that get the command kept for tracing.
  ghost function TracedIn(hs: seq<Happening>): set<Timer> {
    set h <- hs | h.Received? && h.message.command == StartDontTrace :: h.message.timer
  }

  lemma TracedNext(hs: seq<Happening>, i: nat)
    requires i < |hs|
    ensures TracedIn(hs[..i + 1]) == TracedIn(hs[..i]) + TracedIn([hs[i]])
  {
    assert hs[..i + 1] == hs[..i] + [hs[i]];
  }

  // The timers that exist after this happening, and after these.
  function KnownAfter(h: Happening, known: set<Timer>): set<Timer> {
    match h
    case Creation(t, _, _) => known + {t}
    case Turn(_) => known
    case Received(m, _) => if m.command == DeleteTimer then known - {m.timer} else known
  }

  function Known(hs: seq<Happening>, known: set<Timer>): set<Timer> {
    if hs == [] then known else KnownAfter(hs[|hs| - 1], Known(hs[..|hs| - 1], known))
  }

  // The happening can take place at this unbounded time: samples are less than a turn of the
  // tick count apart, and commands are about timers that exist.
  ghost predicate PlausibleAt(h: Happening, given: nat, time: nat, last: nat, known: set<Timer>) {
    match h
    case Creation(t, p, _) => t !in known && p >= 1 && time == last
    case Turn(tick) => tick == TickOf(time) && last <= time < last + WRAP
    case Received(m, tick) =>
      tick == TickOf(time) && last <= time < last + WRAP && m.timer in known && Acceptable(m, given, time)
  }

  ghost predicate Plausible(hs: seq<Happening>, given: seq<nat>, times: seq<nat>, since: nat, known: set<Timer>) {
    && |hs| == |given| == |times|
    && forall i :: 0 <= i < |hs| ==> PlausibleAt(hs[i], given[i], times[i], Previous(times, since, i), Known(hs[..i], known))
  }

  lemma KnownNext(hs: seq<Happening>, i: nat, known: set<Timer>)
    requires i < |hs|
    ensures Known(hs[..i + 1], known) == KnownAfter(hs[i], Known(hs[..i], known))
  {
    assert hs[..i + 1][..i] == hs[..i];
  }

  lemma PlausibleNow(hs: seq<Happening>, given: seq<nat>, times: seq<nat>, since: nat, known: set<Timer>, k: nat)
    requires Plausible(hs, given, times, since, known) && k < |hs|
    ensures |hs| == |given| == |times| && Previous(times, since, k + 1) == times[k]
    ensures PlausibleAt(hs[k], given[k], times[k], Previous(times, since, k), Known(hs[..k], known))
  {
    hide PlausibleAt;
    hide Known;
  }

  predicate Starts(h: Happening) {
    h.Received? && h.message.command in {Start, Reset, ChangePeriod}
  }

  // When the course begins: when the start was commanded, or the change of period received.
  function StartTime(h: Happening, given: nat, time: nat): nat
    requires Starts(h)
  {
    if h.message.command == ChangePeriod then time else given
  }

  // The timer was started by happening i, and no command about it has come in since, up to k.
  predicate StartedAt(hs: seq<Happening>, i: nat, k: nat)
    requires k <= |hs|
  {
    i < k && Starts(hs[i]) &&
    forall j :: i < j < k && hs[j].Received? ==> hs[j].message.timer != hs[i].message.timer
  }

  // The timer is on the course begun at b: an auto-reload timer is listed, and a one-shot timer
  // is listed or has been called back once.
  predicate InTime(home: map<Timer, nat>, reload: map<Timer, bool>, course: map<Timer, Course>, t: Timer, b: nat) {
    && t in reload && t in course && course[t].base == b
    && if reload[t] then t in home else course[t].fired == if t in home then 0 else 1
  }

  lemma StillInTime(home: map<Timer, nat>, home': map<Timer, nat>, reload: map<Timer, bool>,
                    course: map<Timer, Course>, course': map<Timer, Course>, t: Timer, b: nat)
    requires CarriedOver(home, home', reload, course, course', {}) && InTime(home, reload, course, t, b)
    ensures InTime(home', reload, course', t, b)
  {
  }

  ghost predicate Punctual(hs: seq<Happening>, given: seq<nat>, times: seq<nat>, k: nat,
                           home: map<Timer, nat>, reload: map<Timer, bool>, course: map<Timer, Course>)
    requires |hs| == |given| == |times| && k <= |hs|
  {
    forall i :: 0 <= i < k && StartedAt(hs, i, k) ==>
      InTime(home, reload, course, hs[i].message.timer, StartTime(hs[i], given[i], times[i]))
  }

  // The timers a happening is about.
  function About(h: Happening): set<Timer> {
    match h
    case Creation(t, _, _) => {t}
    case Turn(_) => {}
    case Received(m, _) => {m.timer}
  }

  lemma PunctualNext(hs: seq<Happening>, given: seq<nat>, times: seq<nat>, k: nat,
                     home: map<Timer, nat>, home': map<Timer, nat>, reload: map<Timer, bool>, reload': map<Timer, bool>,
                     course: map<Timer, Course>, course': map<Timer, Course>)
    requires |hs| == |given| == |times| && k < |hs| && Punctual(hs, given, times, k, home, reload, course)
    requires CarriedOver(home, home', reload, course, course', About(hs[k])) && AgreeBut(reload, reload', About(hs[k]))
    requires hs[k].Creation? ==> hs[k].timer !in reload
    requires Starts(hs[k]) ==>
               InTime(home', reload', course', hs[k].message.timer, StartTime(hs[k], given[k], times[k]))
    ensures Punctual(hs, given, times, k + 1, home', reload', course')
  {
    forall i | 0 <= i < k + 1 && StartedAt(hs, i, k + 1)
      ensures InTime(home', reload', course', hs[i].message.timer, StartTime(hs[i], given[i], times[i]))
    {
      if i < k {
        assert StartedAt(hs, i, k);
        var t, b := hs[i].message.timer, StartTime(hs[i], given[i], times[i]);
        assert InTime(home, reload, course, t, b);
        assert t !in About(hs[k]);
      }
    }
  }
}
