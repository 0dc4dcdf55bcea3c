// Blocking on a kernel queue.  A task that finds no message (or no room) suspends the scheduler,
// locks the queue, looks again, puts itself on an event list and unlocks.  Interrupts may post
// and remove items at every point of that; while a side is locked they leave the event list
// alone and count.  The state below adds to the queue's own fields what the claims are about:
// which tasks were woken by an event and have not tried again since, and the true numbers of
// posts and removals since the lock was taken.
module QueueProtocol {

  import opened ListModel
  import opened Shelves

  const UNLOCKED := -1
  const INT8_MAX := 127

  datatype Side = Rx | Tx

  // How far the task that has suspended the scheduler has come.
  datatype Phase =
    | Nobody
    | Locked(task: Task, side: Side)
    | Checked(task: Task, side: Side)
    | Leaving
    | TxOpen

  datatype Queue = Queue(
    length: nat, weightless: bool, messages: nat,
    txLock: int, rxLock: int,
    waitRx: seq<Task>, waitTx: seq<Task>,
    live: set<Task>, phase: Phase,
    wokenRx: seq<Task>, wokenTx: seq<Task>, posts: nat, removals: nat)

  datatype Event =
    | TrySend(task: Task, overwrite: bool)
    | TryReceive(task: Task, peek: bool)
    | IsrSend(overwrite: bool)
    | IsrReceive
    | Lock(task: Task, side: Side)
    | TimedOut
    | Check
    | Place(at: nat)
    | UnlockTx
    | UnlockRx
    | Remove(task: Task)
    | Create(task: Task)
    | Delete(task: Task)
    | Reset

  // ---- what the critical sections do

  predicate Accepts(q: Queue, overwrite: bool) {
    q.messages < q.length || overwrite
  }

  // The count after prvCopyDataToQueue.
  function Posted(q: Queue, overwrite: bool): nat {
    if overwrite && q.messages > 0 && !q.weightless then q.messages else q.messages + 1
  }

  function WakeRx(q: Queue): Queue {
    if q.waitRx == [] then q
    else q.(waitRx := q.waitRx[1..], wokenRx := q.wokenRx + [q.waitRx[0]])
  }

  function WakeTx(q: Queue): Queue {
    if q.waitTx == [] then q
    else q.(waitTx := q.waitTx[1..], wokenTx := q.wokenTx + [q.waitTx[0]])
  }

  // prvIncrementQueueTxLock and prvIncrementQueueRxLock.
  function Counted(lock: int, tasks: nat): int {
    if lock < tasks then lock + 1 else lock
  }

  function Min(a: int, b: int): int { if a < b then a else b }

  function DoSend(q: Queue, t: Task, overwrite: bool): Queue {
    var p := q.(wokenTx := RemoveOne(q.wokenTx, t));
    if Accepts(q, overwrite) then WakeRx(p.(messages := Posted(q, overwrite))) else p
  }

  function DoReceive(q: Queue, t: Task, peek: bool): Queue {
    var p := q.(wokenRx := RemoveOne(q.wokenRx, t));
    if q.messages == 0 then p
    else if peek then WakeRx(p)
    else WakeTx(p.(messages := q.messages - 1))
  }

  function DoIsrSend(q: Queue, overwrite: bool): Queue {
    if !Accepts(q, overwrite) then q
    else
      var p := q.(messages := Posted(q, overwrite));
      if q.txLock == UNLOCKED then WakeRx(p)
      else p.(txLock := Counted(q.txLock, |q.live|), posts := q.posts + 1)
  }

  function DoIsrReceive(q: Queue): Queue {
    if q.messages == 0 then q
    else
      var p := q.(messages := q.messages - 1);
      if q.rxLock == UNLOCKED then WakeTx(p)
      else p.(rxLock := Counted(q.rxLock, |q.live|), removals := q.removals + 1)
  }

  function DoLock(q: Queue, t: Task, side: Side): Queue {
    q.(rxLock := if q.rxLock == UNLOCKED then 0 else q.rxLock,
       txLock := if q.txLock == UNLOCKED then 0 else q.txLock,
       phase := Locked(t, side))
  }

  function DoCheck(q: Queue): Queue
    requires q.phase.Locked?
  {
    var blocks := if q.phase.side == Rx then q.messages == 0 else q.messages == q.length;
    q.(phase := if blocks then Checked(q.phase.task, q.phase.side) else Leaving)
  }

  // vTaskPlaceOnEventList: the list is in priority order, so the place is any.
  function DoPlace(q: Queue, at: nat): Queue
    requires q.phase.Checked?
    requires at <= |if q.phase.side == Rx then q.waitRx else q.waitTx|
  {
    if q.phase.side == Rx then q.(waitRx := InsertAt(q.waitRx, at, q.phase.task), phase := Leaving)
    else q.(waitTx := InsertAt(q.waitTx, at, q.phase.task), phase := Leaving)
  }

  function DoUnlockTx(q: Queue): Queue {
    var k := Min(if q.txLock > 0 then q.txLock else 0, |q.waitRx|);
    q.(waitRx := q.waitRx[k..], wokenRx := q.wokenRx + q.waitRx[..k],
       txLock := UNLOCKED, posts := 0, phase := TxOpen)
  }

  function DoUnlockRx(q: Queue): Queue {
    var k := Min(if q.rxLock > 0 then q.rxLock else 0, |q.waitTx|);
    q.(waitTx := q.waitTx[k..], wokenTx := q.wokenTx + q.waitTx[..k],
       rxLock := UNLOCKED, removals := 0, phase := Nobody)
  }

  function WithoutTask(s: seq<Task>, t: Task): (r: seq<Task>)
    ensures t !in r && |r| <= |s|
    ensures t !in s ==> r == s
    ensures forall x <- r :: x in s
    ensures t in s ==> |r| < |s|
  {
    if s == [] then [] else (if s[0] == t then [] else [s[0]]) + WithoutTask(s[1..], t)
  }

  // A timeout, or a suspension, takes the task off its event list.
  function DoRemove(q: Queue, t: Task): Queue {
    q.(waitRx := RemoveOne(q.waitRx, t), waitTx := RemoveOne(q.waitTx, t))
  }

  function DoDelete(q: Queue, t: Task): Queue {
    DoRemove(q, t).(wokenRx := WithoutTask(q.wokenRx, t), wokenTx := WithoutTask(q.wokenTx, t),
                    live := q.live - {t})
  }

  // A task that runs while nobody has suspended the scheduler is on no event list.
  predicate Runs(q: Queue, t: Task) {
    q.phase == Nobody && t in q.live && t !in q.waitRx && t !in q.waitTx
  }

  predicate Enabled(q: Queue, e: Event) {
    match e
    case TrySend(t, o) => Runs(q, t) && (o ==> q.length == 1)
    case TryReceive(t, _) => Runs(q, t)
    case IsrSend(o) => o ==> q.length == 1
    case IsrReceive => true
    case Lock(t, _) => Runs(q, t)
    case TimedOut => q.phase.Locked?
    case Check => q.phase.Locked?
    case Place(at) => q.phase.Checked? && at <= |if q.phase.side == Rx then q.waitRx else q.waitTx|
    case UnlockTx => q.phase == Leaving
    case UnlockRx => q.phase == TxOpen
    case Remove(_) => q.phase == Nobody
    case Create(t) => q.phase == Nobody && t !in q.live
    case Delete(t) => q.phase == Nobody && t in q.live
    case Reset => q.phase == Nobody
  }

  function Step(q: Queue, e: Event): Queue
    requires Enabled(q, e)
  {
    match e
    case TrySend(t, o) => DoSend(q, t, o)
    case TryReceive(t, peek) => DoReceive(q, t, peek)
    case IsrSend(o) => DoIsrSend(q, o)
    case IsrReceive => DoIsrReceive(q)
    case Lock(t, side) => DoLock(q, t, side)
    case TimedOut => q.(phase := Leaving)
    case Check => DoCheck(q)
    case Place(at) => DoPlace(q, at)
    case UnlockTx => DoUnlockTx(q)
    case UnlockRx => DoUnlockRx(q)
    case Remove(t) => DoRemove(q, t)
    case Create(t) => q.(live := q.live + {t})
    case Delete(t) => DoDelete(q, t)
    case Reset => WakeTx(q.(messages := 0))
  }

  predicate Possible(q: Queue, events: seq<Event>)
    decreases |events|
  {
    events == [] || (Enabled(q, events[0]) && Possible(Step(q, events[0]), events[1..]))
  }

  function After(q: Queue, events: seq<Event>): Queue
    requires Possible(q, events)
    decreases |events|
  {
    if events == [] then q else After(Step(q, events[0]), events[1..])
  }

  // A queue as it is created.
  predicate Fresh(q: Queue) {
    && q.length >= 1 && q.messages == 0 && q.txLock == UNLOCKED && q.rxLock == UNLOCKED
    && q.waitRx == [] && q.waitTx == [] && q.phase == Nobody
    && q.wokenRx == [] && q.wokenTx == [] && q.posts == 0 && q.removals == 0
  }

  // ---- what every state keeps

  predicate Queued(wait: seq<Task>, live: set<Task>) {
    Distinct(wait) && forall t <- wait :: t in live
  }

  predicate LockOk(lock: int, n: nat, tasks: nat, open: bool) {
    if open then lock == UNLOCKED && n == 0 else lock == Min(n, tasks)
  }

  predicate Shape(q: Queue) {
    && Queued(q.waitRx, q.live) && Queued(q.waitTx, q.live)
    && LockOk(q.txLock, q.posts, |q.live|, q.phase == Nobody || q.phase == TxOpen)
    && LockOk(q.rxLock, q.removals, |q.live|, q.phase == Nobody)
    && (q.phase.Locked? || q.phase.Checked? ==>
        q.phase.task in q.live && q.phase.task !in q.waitRx && q.phase.task !in q.waitTx)
  }

  // If a task still waits to receive, every message is spoken for: by a receiver that was woken
  // and has not tried again, or by a post the unlocking task will answer.
  predicate ReceiversServed(q: Queue) {
    && (q.waitRx != [] ==> q.messages <= |q.wokenRx| + q.posts)
    && (q.phase.Checked? && q.phase.side == Rx ==> q.messages <= q.posts)
  }

  // The same for free slots and tasks that wait to send.
  predicate SendersServed(q: Queue) {
    && (q.waitTx != [] ==> q.length - q.messages <= |q.wokenTx| + q.removals)
    && (q.phase.Checked? && q.phase.side == Tx ==> q.length - q.messages <= q.removals)
  }

  lemma {:induction false} QueuedBound(wait: seq<Task>, live: set<Task>)
    requires Queued(wait, live)
    ensures |wait| <= |live|
    decreases |wait|
  {
    if wait != [] {
      QueuedBound(wait[1..], live - {wait[0]});
    }
  }

  lemma QueuedRemove(wait: seq<Task>, live: set<Task>, t: Task)
    requires Queued(wait, live)
    ensures Queued(RemoveOne(wait, t), live) && Queued(RemoveOne(wait, t), live - {t})
  {
    RemoveOneContents(wait, t);
    DistinctRemoveOne(wait, t);
  }

  lemma QueuedInsert(wait: seq<Task>, live: set<Task>, at: nat, t: Task)
    requires Queued(wait, live) && t in live && t !in wait && at <= |wait|
    ensures Queued(InsertAt(wait, at, t), live)
  {
    DistinctInsertAt(wait, at, t);
    InsertAtContents(wait, at, t);
  }

  lemma QueuedDrop(wait: seq<Task>, live: set<Task>, k: nat)
    requires Queued(wait, live) && k <= |wait|
    ensures Queued(wait[k..], live)
  {
  }

  lemma ShapeKept(q: Queue, e: Event)
    requires Shape(q) && Enabled(q, e)
    ensures Shape(Step(q, e))
  {
    match e
    case TrySend(t, o) => ShapeTask(q, t, o, false);
    case TryReceive(t, peek) => ShapeTask(q, t, false, peek);
    case IsrSend(o) => ShapeIsr(q, o);
    case IsrReceive => ShapeIsr(q, false);
    case UnlockTx => ShapeUnlock(q);
    case UnlockRx => ShapeUnlock(q);
    case Remove(t) => ShapeRemove(q, t);
    case Delete(t) => ShapeRemove(q, t);
    case Place(at) => ShapePlace(q, at);
    case Reset => ShapeTask(q, 0, false, false);
    case _ =>
  }

  lemma ShapeTask(q: Queue, t: Task, overwrite: bool, peek: bool)
    requires Shape(q) && q.phase == Nobody
    ensures Shape(DoSend(q, t, overwrite)) && Shape(DoReceive(q, t, peek)) && Shape(WakeTx(q.(messages := 0)))
  {
    if q.waitRx != [] {
      QueuedDrop(q.waitRx, q.live, 1);
    }
    if q.waitTx != [] {
      QueuedDrop(q.waitTx, q.live, 1);
    }
  }

  lemma ShapeIsr(q: Queue, overwrite: bool)
    requires Shape(q)
    ensures Shape(DoIsrSend(q, overwrite)) && Shape(DoIsrReceive(q))
  {
    if q.waitRx != [] {
      QueuedDrop(q.waitRx, q.live, 1);
    }
    if q.waitTx != [] {
      QueuedDrop(q.waitTx, q.live, 1);
    }
  }

  lemma ShapeUnlock(q: Queue)
    requires Shape(q)
    ensures q.phase == Leaving ==> Shape(DoUnlockTx(q))
    ensures q.phase == TxOpen ==> Shape(DoUnlockRx(q))
  {
    QueuedDrop(q.waitRx, q.live, Min(if q.txLock > 0 then q.txLock else 0, |q.waitRx|));
    QueuedDrop(q.waitTx, q.live, Min(if q.rxLock > 0 then q.rxLock else 0, |q.waitTx|));
  }

  lemma ShapeRemove(q: Queue, t: Task)
    requires Shape(q) && q.phase == Nobody
    ensures Shape(DoRemove(q, t)) && (t in q.live ==> Shape(DoDelete(q, t)))
  {
    QueuedRemove(q.waitRx, q.live, t);
    QueuedRemove(q.waitTx, q.live, t);
  }

  lemma ShapePlace(q: Queue, at: nat)
    requires Shape(q) && Enabled(q, Place(at))
    ensures Shape(DoPlace(q, at))
  {
    if q.phase.side == Rx {
      QueuedInsert(q.waitRx, q.live, at, q.phase.task);
    } else {
      QueuedInsert(q.waitTx, q.live, at, q.phase.task);
    }
  }

  lemma ReceiversKept(q: Queue, e: Event)
    requires Shape(q) && Enabled(q, e) && ReceiversServed(q)
    requires e.Delete? ==> e.task !in q.wokenRx
    ensures ReceiversServed(Step(q, e))
  {
    QueuedBound(q.waitRx, q.live);
  }

  lemma SendersKept(q: Queue, e: Event)
    requires Shape(q) && Enabled(q, e) && SendersServed(q)
    requires e.Delete? ==> e.task !in q.wokenTx
    requires e != Reset
    ensures SendersServed(Step(q, e))
  {
    QueuedBound(q.waitTx, q.live);
  }

  // ---- no wakeup is lost, over whole runs

  predicate SparesWokenReceivers(q: Queue, events: seq<Event>)
    requires Possible(q, events)
    decreases |events|
  {
    events == [] ||
    ((events[0].Delete? ==> events[0].task !in q.wokenRx) &&
     SparesWokenReceivers(Step(q, events[0]), events[1..]))
  }

  predicate SparesWokenSenders(q: Queue, events: seq<Event>)
    requires Possible(q, events)
    decreases |events|
  {
    events == [] ||
    ((events[0].Delete? ==> events[0].task !in q.wokenTx) && events[0] != Reset &&
     SparesWokenSenders(Step(q, events[0]), events[1..]))
  }

  lemma {:induction false} ShapeAlways(q: Queue, events: seq<Event>)
    requires Shape(q) && Possible(q, events)
    ensures Shape(After(q, events))
    decreases |events|
  {
    if events != [] {
      ShapeKept(q, events[0]);
      ShapeAlways(Step(q, events[0]), events[1..]);
    }
  }

  lemma {:induction false} ReceiversAlways(q: Queue, events: seq<Event>)
    requires Shape(q) && ReceiversServed(q) && Possible(q, events) && SparesWokenReceivers(q, events)
    ensures ReceiversServed(After(q, events))
    decreases |events|
  {
    if events != [] {
      ShapeKept(q, events[0]);
      ReceiversKept(q, events[0]);
      ReceiversAlways(Step(q, events[0]), events[1..]);
    }
  }

  lemma {:induction false} SendersAlways(q: Queue, events: seq<Event>)
    requires Shape(q) && SendersServed(q) && Possible(q, events) && SparesWokenSenders(q, events)
    ensures SendersServed(After(q, events))
    decreases |events|
  {
    if events != [] {
      ShapeKept(q, events[0]);
      SendersKept(q, events[0]);
      SendersAlways(Step(q, events[0]), events[1..]);
    }
  }

  // A queue holds no more messages than it is long, unless overwrites of items of no size are
  // counted as additions.
  predicate Bounded(q: Queue) { q.messages <= q.length || (q.weightless && q.length == 1) }

  lemma {:induction false} BoundedAlways(q: Queue, events: seq<Event>)
    requires Bounded(q) && Possible(q, events)
    ensures Bounded(After(q, events))
    ensures After(q, events).length == q.length && After(q, events).weightless == q.weightless
    decreases |events|
  {
    if events != [] {
      BoundedStep(q, events[0]);
      BoundedAlways(Step(q, events[0]), events[1..]);
    }
  }

  lemma BoundedStep(q: Queue, e: Event)
    requires Bounded(q) && Enabled(q, e)
    ensures Bounded(Step(q, e)) && Step(q, e).length == q.length && Step(q, e).weightless == q.weightless
  {
  }

  // The claim itself: from creation on, under any interleaving of task and interrupt calls,
  // timeouts, suspensions, task creations and resets, and deletions of any task but a woken
  // receiver, a receiver is left waiting only if every message has a woken receiver, or while
  // the queue is locked a post that the unlocking task will answer.
  lemma NoReceiverForgotten(q: Queue, events: seq<Event>)
    requires Fresh(q) && Possible(q, events) && SparesWokenReceivers(q, events)
    ensures var p := After(q, events);
            && (p.waitRx != [] && p.txLock == UNLOCKED ==> p.messages <= |p.wokenRx|)
            && (p.waitRx != [] && p.txLock != UNLOCKED ==>
                p.messages <= |p.wokenRx| + p.txLock || p.txLock == |p.live| < p.messages)
            && (q.length <= |p.live| && !(q.weightless && q.length == 1) ==> ReceiversCovered(p))
  {
    ShapeAlways(q, events);
    ReceiversAlways(q, events);
    BoundedAlways(q, events);
  }

  // While the queue is locked, the lock count makes up for the messages no woken receiver has.
  predicate ReceiversCovered(p: Queue) {
    p.waitRx != [] && p.txLock != UNLOCKED ==> p.messages <= |p.wokenRx| + p.txLock
  }

  predicate SendersCovered(p: Queue) {
    p.waitTx != [] && p.rxLock != UNLOCKED ==> p.length - p.messages <= |p.wokenTx| + p.rxLock
  }

  lemma NoSenderForgotten(q: Queue, events: seq<Event>)
    requires Fresh(q) && Possible(q, events) && SparesWokenSenders(q, events)
    ensures var p := After(q, events);
            && (p.waitTx != [] && p.rxLock == UNLOCKED ==> p.length - p.messages <= |p.wokenTx|)
            && (p.waitTx != [] && p.rxLock != UNLOCKED ==>
                p.length - p.messages <= |p.wokenTx| + p.rxLock || p.rxLock == |p.live| < p.length - p.messages)
            && (q.length <= |p.live| ==> SendersCovered(p))
  {
    ShapeAlways(q, events);
    SendersAlways(q, events);
    BoundedAlways(q, events);
  }

  // ---- the capped counts

  // Although the counts stop at the number of tasks, unlocking wakes exactly as many waiting
  // tasks as the true number of posts (of removals) allows, in list order.
  lemma UnlockWakesExactly(q: Queue)
    requires Shape(q)
    ensures q.phase == Leaving ==>
              var k := Min(q.posts, |q.waitRx|);
              && Step(q, UnlockTx).waitRx == q.waitRx[k..]
              && Step(q, UnlockTx).wokenRx == q.wokenRx + q.waitRx[..k]
    ensures q.phase == TxOpen ==>
              var k := Min(q.removals, |q.waitTx|);
              && Step(q, UnlockRx).waitTx == q.waitTx[k..]
              && Step(q, UnlockRx).wokenTx == q.wokenTx + q.waitTx[..k]
  {
    QueuedBound(q.waitRx, q.live);
    QueuedBound(q.waitTx, q.live);
  }

  // configASSERT in the two increment macros.
  predicate CountersFit(q: Queue) {
    && (0 <= q.txLock < |q.live| ==> q.txLock != INT8_MAX)
    && (0 <= q.rxLock < |q.live| ==> q.rxLock != INT8_MAX)
  }

  // With at most 127 tasks the assertion never fails, ...
  lemma CountersAlwaysFit(q: Queue, events: seq<Event>)
    requires Fresh(q) && Possible(q, events) && |After(q, events).live| <= INT8_MAX
    ensures CountersFit(After(q, events))
  {
    ShapeAlways(q, events);
  }

  // n posts, each removed again.
  function PostsAndRemovals(n: nat): seq<Event> {
    if n == 0 then [] else [IsrSend(false)] + ([IsrReceive] + PostsAndRemovals(n - 1))
  }

  lemma {:induction false} PairsCounted(q: Queue, n: nat)
    requires q.txLock >= 0 && q.messages == 0 && q.length >= 1
    ensures Possible(q, PostsAndRemovals(n)) && After(q, PostsAndRemovals(n)).live == q.live
    ensures q.txLock + n <= |q.live| ==> After(q, PostsAndRemovals(n)).txLock == q.txLock + n
    decreases n
  {
    if n > 0 {
      var p := Step(q, IsrSend(false));
      var r := Step(p, IsrReceive);
      PairsCounted(r, n - 1);
      RunStep(p, IsrReceive, PostsAndRemovals(n - 1));
      RunStep(q, IsrSend(false), [IsrReceive] + PostsAndRemovals(n - 1));
    }
  }

  // ... and with more it can, however long the queue: 127 posts while it is locked are enough.
  lemma CountersCanOverflow(q: Queue, t: Task)
    requires Fresh(q) && t in q.live && |q.live| > INT8_MAX
    ensures var events := [Lock(t, Rx)] + PostsAndRemovals(INT8_MAX);
            Possible(q, events) && !CountersFit(After(q, events))
  {
    var n: nat := INT8_MAX;
    PairsCounted(DoLock(q, t, Rx), n);
    RunStep(q, Lock(t, Rx), PostsAndRemovals(n));
  }

  // ---- where the claims stop

  // How many wakeups on the list belong to tasks other than t.
  function OfOthers(s: seq<Task>, t: Task): nat {
    if s == [] then 0 else (if s[0] == t then 0 else 1) + OfOthers(s[1..], t)
  }

  lemma {:induction false} OthersStay(s: seq<Task>, t: Task)
    ensures OfOthers(s, t) == |WithoutTask(s, t)| && (OfOthers(s, t) == |s| <==> t !in s)
  {
    if s != [] {
      OthersStay(s[1..], t);
    }
  }

  // Deleting a task takes its wakeups along.  The claim survives exactly when the task has not
  // been woken, or no other task waits, or the other tasks' wakeups suffice for the messages.
  lemma DeletionExactly(q: Queue, t: Task)
    requires Shape(q) && Enabled(q, Delete(t)) && ReceiversServed(q)
    ensures ReceiversServed(Step(q, Delete(t))) <==>
              t !in q.wokenRx || (forall x <- q.waitRx :: x == t) || q.messages <= OfOthers(q.wokenRx, t)
  {
    RemoveOneContents(q.waitRx, t);
    DistinctRemoveOne(q.waitRx, t);
    OthersStay(q.wokenRx, t);
    var rest := RemoveOne(q.waitRx, t);
    if rest != [] {
      assert rest[0] in q.waitRx && rest[0] != t;
    }
  }

  // Reset frees every slot and wakes one sender.
  lemma ResetExactly(q: Queue)
    requires Shape(q) && Enabled(q, Reset) && SendersServed(q)
    ensures SendersServed(Step(q, Reset)) <==> |q.waitTx| <= 1 || q.length <= |q.wokenTx| + 1
  {
  }

  function Created(length: nat, live: set<Task>): Queue {
    Queue(length, false, 0, UNLOCKED, UNLOCKED, [], [], live, Nobody, [], [], 0, 0)
  }

  // A receiver finds the queue empty and waits behind `at` others.
  function WaitsToReceive(t: Task, at: nat): seq<Event> {
    [Lock(t, Rx), Check, Place(at), UnlockTx, UnlockRx]
  }

  lemma RunStep(q: Queue, e: Event, rest: seq<Event>)
    requires Enabled(q, e)
    ensures Possible(q, [e] + rest) == Possible(Step(q, e), rest)
    ensures Possible(Step(q, e), rest) ==> After(q, [e] + rest) == After(Step(q, e), rest)
  {
    assert ([e] + rest)[1..] == rest;
  }

  lemma {:induction false} RunAppend(q: Queue, xs: seq<Event>, ys: seq<Event>)
    requires Possible(q, xs) && Possible(After(q, xs), ys)
    ensures Possible(q, xs + ys) && After(q, xs + ys) == After(After(q, xs), ys)
    decreases |xs|
  {
    if xs == [] {
      assert xs + ys == ys;
    } else {
      RunAppend(Step(q, xs[0]), xs[1..], ys);
      assert xs[1..] + ys == (xs + ys)[1..];
    }
  }

  lemma PlacesReceiver(q: Queue, at: nat)
    requires q.phase.Checked? && q.phase.side == Rx && at == |q.waitRx|
    requires q.txLock == 0 && q.rxLock == 0 && q.posts == 0 && q.removals == 0
    ensures var events := [Place(at)] + ([UnlockTx] + ([UnlockRx] + []));
            && Possible(q, events)
            && After(q, events) == q.(waitRx := InsertAt(q.waitRx, at, q.phase.task), phase := Nobody,
                                      txLock := UNLOCKED, rxLock := UNLOCKED)
  {
    var p := Step(q, Place(at));
    var r := p.(txLock := UNLOCKED, phase := TxOpen);
    assert Step(p, UnlockTx) == r;
    assert Step(r, UnlockRx) == r.(rxLock := UNLOCKED, phase := Nobody);
    RunStep(r, UnlockRx, []);
    RunStep(p, UnlockTx, [UnlockRx] + []);
    RunStep(q, Place(at), [UnlockTx] + ([UnlockRx] + []));
  }

  lemma Waits(q: Queue, t: Task)
    requires q.messages == 0 && q.txLock == UNLOCKED && q.rxLock == UNLOCKED && Runs(q, t)
    requires q.posts == 0 && q.removals == 0
    ensures Possible(q, WaitsToReceive(t, |q.waitRx|))
    ensures After(q, WaitsToReceive(t, |q.waitRx|)) == q.(waitRx := InsertAt(q.waitRx, |q.waitRx|, t))
  {
    var at := |q.waitRx|;
    var p := q.(txLock := 0, rxLock := 0, phase := Locked(t, Rx));
    var r := p.(phase := Checked(t, Rx));
    var ends := [Place(at)] + ([UnlockTx] + ([UnlockRx] + []));
    PlacesReceiver(r, at);
    RunStep(p, Check, ends);
    RunStep(q, Lock(t, Rx), [Check] + ends);
    assert WaitsToReceive(t, at) == [Lock(t, Rx)] + ([Check] + ends);
  }

  // Deleting a woken receiver does lose its wakeup: two tasks wait, one message arrives, and
  // the task woken for it is deleted.  The other goes on waiting although a message is there.
  lemma DeletionForgets()
    ensures var q, events := Created(1, {1, 2}),
              WaitsToReceive(1, 0) + (WaitsToReceive(2, 1) + [IsrSend(false), Delete(1)]);
            && Fresh(q) && Possible(q, events)
            && var p := After(q, events);
               p.phase == Nobody && p.messages == 1 && p.waitRx == [2] && p.wokenRx == []
  {
    var q := Created(1, {1, 2});
    var p := q.(waitRx := [1]);
    var r := q.(waitRx := [1, 2]);
    assert InsertAt(q.waitRx, 0, 1) == [1] && InsertAt([1], 1, 2) == [1, 2];
    var s := r.(messages := 1, waitRx := [2], wokenRx := [1]);
    assert Step(r, IsrSend(false)) == s;
    assert RemoveOne([2], 1) == [2] && WithoutTask([1], 1) == [];
    RunStep(s, Delete(1), []);
    RunStep(r, IsrSend(false), [Delete(1)] + []);
    var ends := [IsrSend(false)] + ([Delete(1)] + []);
    assert [IsrSend(false), Delete(1)] == ends;
    Waits(p, 2);
    RunAppend(p, WaitsToReceive(2, 1), ends);
    Waits(q, 1);
    RunAppend(q, WaitsToReceive(1, 0), WaitsToReceive(2, 1) + ends);
  }

  // A sender finds the queue full and waits behind `at` others.
  function WaitsToSend(t: Task, at: nat): seq<Event> {
    [Lock(t, Tx), Check, Place(at), UnlockTx, UnlockRx]
  }

  lemma PlacesSender(q: Queue, at: nat)
    requires q.phase.Checked? && q.phase.side == Tx && at == |q.waitTx|
    requires q.txLock == 0 && q.rxLock == 0 && q.posts == 0 && q.removals == 0
    ensures var events := [Place(at)] + ([UnlockTx] + ([UnlockRx] + []));
            && Possible(q, events)
            && After(q, events) == q.(waitTx := InsertAt(q.waitTx, at, q.phase.task), phase := Nobody,
                                      txLock := UNLOCKED, rxLock := UNLOCKED)
  {
    var p := Step(q, Place(at));
    var r := p.(txLock := UNLOCKED, phase := TxOpen);
    assert Step(p, UnlockTx) == r;
    assert Step(r, UnlockRx) == r.(rxLock := UNLOCKED, phase := Nobody);
    RunStep(r, UnlockRx, []);
    RunStep(p, UnlockTx, [UnlockRx] + []);
    RunStep(q, Place(at), [UnlockTx] + ([UnlockRx] + []));
  }

  lemma SenderWaits(q: Queue, t: Task)
    requires q.messages == q.length && q.txLock == UNLOCKED && q.rxLock == UNLOCKED && Runs(q, t)
    requires q.posts == 0 && q.removals == 0
    ensures Possible(q, WaitsToSend(t, |q.waitTx|))
    ensures After(q, WaitsToSend(t, |q.waitTx|)) == q.(waitTx := InsertAt(q.waitTx, |q.waitTx|, t))
  {
    var at := |q.waitTx|;
    var p := q.(txLock := 0, rxLock := 0, phase := Locked(t, Tx));
    var r := p.(phase := Checked(t, Tx));
    var ends := [Place(at)] + ([UnlockTx] + ([UnlockRx] + []));
    PlacesSender(r, at);
    RunStep(p, Check, ends);
    RunStep(q, Lock(t, Tx), [Check] + ends);
    assert WaitsToSend(t, at) == [Lock(t, Tx)] + ([Check] + ends);
  }

  // Reset does leave a sender behind: two messages fill the queue, two tasks wait to send, and
  // the reset that makes room for both wakes one.
  lemma ResetForgets()
    ensures var q, events := Created(2, {1, 2}),
              [IsrSend(false), IsrSend(false)] + (WaitsToSend(1, 0) + (WaitsToSend(2, 1) + [Reset]));
            && Fresh(q) && Possible(q, events)
            && var p := After(q, events);
               p.phase == Nobody && p.length - p.messages == 2 && p.waitTx == [2] && p.wokenTx == [1]
  {
    var q := Created(2, {1, 2});
    var full := q.(messages := 2);
    var p := full.(waitTx := [1]);
    var r := full.(waitTx := [1, 2]);
    assert InsertAt(full.waitTx, 0, 1) == [1] && InsertAt([1], 1, 2) == [1, 2];
    RunStep(r, Reset, []);
    assert [Reset] == [Reset] + [];
    SenderWaits(p, 2);
    RunAppend(p, WaitsToSend(2, 1), [Reset]);
    SenderWaits(full, 1);
    RunAppend(full, WaitsToSend(1, 0), WaitsToSend(2, 1) + [Reset]);
    FilledUp(q);
    RunAppend(q, [IsrSend(false), IsrSend(false)], WaitsToSend(1, 0) + (WaitsToSend(2, 1) + [Reset]));
  }

  lemma FilledUp(q: Queue)
    requires Fresh(q) && q.length >= 2
    ensures var events := [IsrSend(false), IsrSend(false)];
            Possible(q, events) && After(q, events) == q.(messages := 2)
  {
    var half := q.(messages := 1);
    assert Step(q, IsrSend(false)) == half && Step(half, IsrSend(false)) == q.(messages := 2);
    RunStep(half, IsrSend(false), []);
    assert [IsrSend(false)] == [IsrSend(false)] + [];
    RunStep(q, IsrSend(false), [IsrSend(false)]);
    assert [IsrSend(false), IsrSend(false)] == [IsrSend(false)] + [IsrSend(false)];
  }

  // n posts from interrupts, with or without overwriting, and n removals.
  function Posts(n: nat, overwrite: bool): seq<Event> {
    if n == 0 then [] else [IsrSend(overwrite)] + Posts(n - 1, overwrite)
  }

  function Removals(n: nat): seq<Event> {
    if n == 0 then [] else [IsrReceive] + Removals(n - 1)
  }

  // What posts to a queue whose Tx side is locked amount to.
  lemma {:induction false} PostsCounted(q: Queue, n: nat, overwrite: bool)
    requires 0 <= q.txLock <= |q.live|
    requires if overwrite then q.length == 1 && q.weightless else q.messages + n <= q.length
    ensures Possible(q, Posts(n, overwrite))
    ensures After(q, Posts(n, overwrite)) ==
            q.(messages := q.messages + n, txLock := Min(q.txLock + n, |q.live|), posts := q.posts + n)
    ensures SparesWokenReceivers(q, Posts(n, overwrite))
    decreases n
  {
    if n > 0 {
      PostsCounted(Step(q, IsrSend(overwrite)), n - 1, overwrite);
      RunStep(q, IsrSend(overwrite), Posts(n - 1, overwrite));
      SparesStep(q, IsrSend(overwrite), Posts(n - 1, overwrite));
    }
  }

  // The same of an unlocked queue nobody waits for.
  lemma {:induction false} FilledBy(q: Queue, n: nat)
    requires q.txLock == UNLOCKED && q.waitRx == [] && q.messages + n <= q.length
    ensures Possible(q, Posts(n, false)) && After(q, Posts(n, false)) == q.(messages := q.messages + n)
    ensures SparesWokenSenders(q, Posts(n, false))
    decreases n
  {
    if n > 0 {
      FilledBy(Step(q, IsrSend(false)), n - 1);
      RunStep(q, IsrSend(false), Posts(n - 1, false));
      SparesStep(q, IsrSend(false), Posts(n - 1, false));
    }
  }

  lemma {:induction false} RemovalsCounted(q: Queue, n: nat)
    requires 0 <= q.rxLock <= |q.live| && n <= q.messages
    ensures Possible(q, Removals(n))
    ensures After(q, Removals(n)) ==
            q.(messages := q.messages - n, rxLock := Min(q.rxLock + n, |q.live|), removals := q.removals + n)
    ensures SparesWokenSenders(q, Removals(n))
    decreases n
  {
    if n > 0 {
      RemovalsCounted(Step(q, IsrReceive), n - 1);
      RunStep(q, IsrReceive, Removals(n - 1));
      SparesStep(q, IsrReceive, Removals(n - 1));
    }
  }

  lemma SparesStep(q: Queue, e: Event, rest: seq<Event>)
    requires Enabled(q, e) && Possible(Step(q, e), rest) && !e.Delete? && e != Reset
    ensures Possible(q, [e] + rest)
    ensures SparesWokenReceivers(q, [e] + rest) == SparesWokenReceivers(Step(q, e), rest)
    ensures SparesWokenSenders(q, [e] + rest) == SparesWokenSenders(Step(q, e), rest)
  {
    assert ([e] + rest)[1..] == rest;
  }

  lemma {:induction false} SparesAppend(q: Queue, xs: seq<Event>, ys: seq<Event>)
    requires Possible(q, xs) && Possible(After(q, xs), ys) && Possible(q, xs + ys)
    ensures SparesWokenReceivers(q, xs) && SparesWokenReceivers(After(q, xs), ys) ==> SparesWokenReceivers(q, xs + ys)
    ensures SparesWokenSenders(q, xs) && SparesWokenSenders(After(q, xs), ys) ==> SparesWokenSenders(q, xs + ys)
    decreases |xs|
  {
    if xs == [] {
      assert xs + ys == ys;
    } else {
      assert xs[1..] + ys == (xs + ys)[1..];
      SparesAppend(Step(q, xs[0]), xs[1..], ys);
    }
  }

  // A run to a state where the lock count has stopped at the number of tasks while a receiver
  // waits beside more messages.
  lemma SaturatedReceivers(q: Queue, t: Task, n: nat, overwrite: bool) returns (events: seq<Event>)
    requires Fresh(q) && t in q.live && n > |q.live|
    requires if overwrite then q.length == 1 && q.weightless else n <= q.length
    ensures Possible(q, events) && SparesWokenReceivers(q, events) && After(q, events).live == q.live
    ensures !ReceiversCovered(After(q, events))
  {
    var p := Step(q, Lock(t, Rx));
    var r := Step(p, Check);
    PostsCounted(r, n, overwrite);
    var s := After(r, Posts(n, overwrite));
    var z := [Place(0)] + [];
    RunStep(s, Place(0), []);
    SparesStep(s, Place(0), []);
    RunAppend(r, Posts(n, overwrite), z);
    SparesAppend(r, Posts(n, overwrite), z);
    var tail := Posts(n, overwrite) + z;
    RunStep(p, Check, tail);
    SparesStep(p, Check, tail);
    RunStep(q, Lock(t, Rx), [Check] + tail);
    SparesStep(q, Lock(t, Rx), [Check] + tail);
    events := [Lock(t, Rx)] + ([Check] + tail);
  }

  lemma SaturatedSenders(q: Queue, t: Task) returns (events: seq<Event>)
    requires Fresh(q) && t in q.live && q.length > |q.live|
    ensures Possible(q, events) && SparesWokenSenders(q, events) && After(q, events).live == q.live
    ensures !SendersCovered(After(q, events))
  {
    FilledBy(q, q.length);
    var full := After(q, Posts(q.length, false));
    var p := Step(full, Lock(t, Tx));
    var r := Step(p, Check);
    RemovalsCounted(r, q.length);
    var s := After(r, Removals(q.length));
    var z := [Place(0)] + [];
    RunStep(s, Place(0), []);
    SparesStep(s, Place(0), []);
    RunAppend(r, Removals(q.length), z);
    SparesAppend(r, Removals(q.length), z);
    var tail := Removals(q.length) + z;
    RunStep(p, Check, tail);
    SparesStep(p, Check, tail);
    var rest := [Lock(t, Tx)] + ([Check] + tail);
    RunStep(full, Lock(t, Tx), [Check] + tail);
    SparesStep(full, Lock(t, Tx), [Check] + tail);
    RunAppend(q, Posts(q.length, false), rest);
    SparesAppend(q, Posts(q.length, false), rest);
    events := Posts(q.length, false) + rest;
  }

  // So the lock count bounds the messages of a locked queue, in every run that ends with the
  // tasks it began with, exactly if the queue is no longer than there are tasks (and does not
  // count overwrites of items of no size as additions).
  lemma LockCountBoundsExactly(q: Queue, t: Task)
    requires Fresh(q) && t in q.live
    ensures q.length <= |q.live| && !(q.weightless && q.length == 1) <==>
              forall events :: Possible(q, events) && SparesWokenReceivers(q, events) && After(q, events).live == q.live ==>
                ReceiversCovered(After(q, events))
  {
    forall events | Possible(q, events) && SparesWokenReceivers(q, events) && After(q, events).live == q.live
      ensures q.length <= |q.live| && !(q.weightless && q.length == 1) ==> ReceiversCovered(After(q, events))
    {
      NoReceiverForgotten(q, events);
    }
    if q.length > |q.live| {
      var events := SaturatedReceivers(q, t, q.length, false);
    } else if q.weightless && q.length == 1 {
      var events := SaturatedReceivers(q, t, |q.live| + 1, true);
    }
  }

  lemma LockCountBoundsSlotsExactly(q: Queue, t: Task)
    requires Fresh(q) && t in q.live
    ensures q.length <= |q.live| <==>
              forall events :: Possible(q, events) && SparesWokenSenders(q, events) && After(q, events).live == q.live ==>
                SendersCovered(After(q, events))
  {
    forall events | Possible(q, events) && SparesWokenSenders(q, events) && After(q, events).live == q.live
      ensures q.length <= |q.live| ==> SendersCovered(After(q, events))
    {
      NoSenderForgotten(q, events);
    }
    if q.length > |q.live| {
      var events := SaturatedSenders(q, t);
    }
  }

  // While the queue is locked the lock count alone does not bound the messages once it has
  // reached the number of tasks: with one task, two posts count once.
  lemma LockCountSaturates()
    ensures var q, events := Created(2, {1}), [Lock(1, Rx), Check, IsrSend(false), IsrSend(false), Place(0)];
            && Fresh(q) && Possible(q, events)
            && var p := After(q, events);
               p.waitRx == [1] && p.messages == 2 && |p.wokenRx| + p.txLock == 1
  {
    var q := Created(2, {1});
    var q1 := Step(q, Lock(1, Rx));
    var q2 := Step(q1, Check);
    var q3 := Step(q2, IsrSend(false));
    var q4 := Step(q3, IsrSend(false));
    assert |q.live| == 1 && q4.txLock == 1;
    var d := [IsrSend(false)] + [Place(0)];
    var c := [IsrSend(false)] + d;
    var b := [Check] + c;
    RunStep(q4, Place(0), []);
    assert [Place(0)] == [Place(0)] + [];
    RunStep(q3, IsrSend(false), [Place(0)]);
    RunStep(q2, IsrSend(false), d);
    RunStep(q1, Check, c);
    RunStep(q, Lock(1, Rx), b);
    assert [Lock(1, Rx), Check, IsrSend(false), IsrSend(false), Place(0)] == [Lock(1, Rx)] + b;
  }
}
