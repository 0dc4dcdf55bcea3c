// The books of a queue, kept from the events alone: how many messages there are, and who has
// joined and left the two event lists, over any run.
module QueueLedger {

  import opened ListModel
  import opened Shelves
  import opened QueueProtocol

  // ---- messages

  predicate Overwrites(e: Event) {
    (e.TrySend? || e.IsrSend?) && e.overwrite
  }

  // A call that puts a message in, and one that takes a message out.
  predicate Sends(q: Queue, e: Event) {
    (e.TrySend? || e.IsrSend?) && (q.messages < q.length || e.overwrite)
  }

  predicate Receives(q: Queue, e: Event) {
    ((e.TryReceive? && !e.peek) || e.IsrReceive?) && q.messages > 0
  }

  // What the event does to the number of messages; an overwrite replaces, if items have a size.
  function Change(q: Queue, e: Event): int {
    if e == Reset then 0 - (q.messages as int)
    else if Receives(q, e) then -1
    else if Sends(q, e) && !(Overwrites(e) && q.messages > 0 && !q.weightless) then 1
    else 0
  }

  function Balance(q: Queue, events: seq<Event>): int
    requires Possible(q, events)
    decreases |events|
  {
    if events == [] then 0 else Change(q, events[0]) + Balance(Step(q, events[0]), events[1..])
  }

  // Over any run the messages are those there were and what the events have made of them.
  lemma {:induction false} MessagesAccounted(q: Queue, events: seq<Event>)
    requires Possible(q, events)
    ensures After(q, events).messages == q.messages + Balance(q, events)
    decreases |events|
  {
    if events != [] {
      MessagesAccounted(Step(q, events[0]), events[1..]);
    }
  }

  function SendsAccepted(q: Queue, events: seq<Event>): nat
    requires Possible(q, events)
    decreases |events|
  {
    if events == [] then 0
    else (if Sends(q, events[0]) then 1 else 0) + SendsAccepted(Step(q, events[0]), events[1..])
  }

  function ReceivesServed(q: Queue, events: seq<Event>): nat
    requires Possible(q, events)
    decreases |events|
  {
    if events == [] then 0
    else (if Receives(q, events[0]) then 1 else 0) + ReceivesServed(Step(q, events[0]), events[1..])
  }

  // Without resets and overwriting: the sends accepted less the receives, not peeks, that found
  // a message, from tasks and interrupts alike.
  lemma {:induction false} MessagesConserved(q: Queue, events: seq<Event>)
    requires Possible(q, events) && forall e <- events :: e != Reset && !Overwrites(e)
    ensures After(q, events).messages == q.messages + SendsAccepted(q, events) - ReceivesServed(q, events)
    decreases |events|
  {
    if events != [] {
      assert events[0] in events && forall e <- events[1..] :: e in events;
      MessagesConserved(Step(q, events[0]), events[1..]);
    }
  }

  // A reset starts the count again.
  lemma ConservedSinceReset(q: Queue, events: seq<Event>, later: seq<Event>)
    requires Possible(q, events + [Reset]) && Possible(After(q, events + [Reset]), later)
    requires forall e <- later :: e != Reset && !Overwrites(e)
    ensures var r := After(q, events + [Reset]);
            && Possible(q, events + [Reset] + later)
            && After(q, events + [Reset] + later).messages == SendsAccepted(r, later) - ReceivesServed(r, later)
  {
    RunAppend(q, events + [Reset], later);
    MessagesConserved(After(q, events + [Reset]), later);
    LastReset(q, events);
  }

  lemma {:induction false} LastReset(q: Queue, events: seq<Event>)
    requires Possible(q, events + [Reset])
    ensures After(q, events + [Reset]).messages == 0
    decreases |events|
  {
    if events == [] {
      assert events + [Reset] == [Reset] && [Reset][1..] == [];
    } else {
      assert (events + [Reset])[1..] == events[1..] + [Reset];
      LastReset(Step(q, events[0]), events[1..]);
    }
  }

  // ---- waiting tasks

  // How many receivers the event wakes: one for a message that has come or been left, if the
  // queue is not locked; for the posts made meanwhile, when it is unlocked.
  function WakesReceivers(q: Queue, e: Event): nat {
    if e == UnlockTx then Min(q.posts, |q.waitRx|)
    else if (e.TrySend? || (e.IsrSend? && q.txLock == UNLOCKED)) && Sends(q, e) then Min(1, |q.waitRx|)
    else if e.TryReceive? && e.peek && q.messages > 0 then Min(1, |q.waitRx|)
    else 0
  }

  function WakesSenders(q: Queue, e: Event): nat {
    if e == UnlockRx then Min(q.removals, |q.waitTx|)
    else if (e.TryReceive? || (e.IsrReceive? && q.rxLock == UNLOCKED)) && Receives(q, e) then Min(1, |q.waitTx|)
    else if e == Reset then Min(1, |q.waitTx|)
    else 0
  }

  predicate TakesOff(e: Event, t: Task) {
    (e.Remove? || e.Delete?) && e.task == t
  }

  predicate Joins(q: Queue, e: Event, side: Side) {
    e.Place? && q.phase.Checked? && q.phase.side == side
  }

  // The list after the event: the first tasks have been woken, the one the event is about has
  // been taken off, or the one that has suspended the scheduler has joined at its place.
  function Remaining(wait: seq<Task>, q: Queue, e: Event, side: Side, woken: nat): seq<Task>
    requires woken <= |wait|
  {
    if Joins(q, e, side) && e.at <= |wait| then InsertAt(wait, e.at, q.phase.task)
    else if e.Remove? || e.Delete? then RemoveOne(wait, e.task)
    else wait[woken..]
  }

  // Those woken earlier: a task that tries again, or is deleted, is no longer one of them.
  function Outstanding(woken: seq<Task>, e: Event, side: Side): seq<Task> {
    match e
    case TryReceive(t, _) => if side == Rx then RemoveOne(woken, t) else woken
    case TrySend(t, _) => if side == Tx then RemoveOne(woken, t) else woken
    case Delete(t) => WithoutTask(woken, t)
    case _ => woken
  }

  // Who waits to receive after an event, and who has been woken by it: no one else joins or
  // leaves, and the tasks woken are the first of the list, in its order.
  ghost predicate ReceiversAre(q: Queue, e: Event, r: Queue) {
    var k := WakesReceivers(q, e);
    && k <= |q.waitRx|
    && r.waitRx == Remaining(q.waitRx, q, e, Rx, k)
    && r.wokenRx == Outstanding(q.wokenRx, e, Rx) + q.waitRx[..k]
  }

  // The same of the tasks that wait to send.
  ghost predicate SendersAre(q: Queue, e: Event, r: Queue) {
    var k := WakesSenders(q, e);
    && k <= |q.waitTx|
    && r.waitTx == Remaining(q.waitTx, q, e, Tx, k)
    && r.wokenTx == Outstanding(q.wokenTx, e, Tx) + q.waitTx[..k]
  }

  lemma WaitersExactly(q: Queue, e: Event)
    requires Shape(q) && Enabled(q, e)
    ensures ReceiversAre(q, e, Step(q, e)) && SendersAre(q, e, Step(q, e))
  {
    hide *;
    if e == UnlockTx || e == UnlockRx {
      UnlockMoves(q, e);
    } else if e.Place? || e.Remove? || e.Delete? {
      TaskMoves(q, e);
    } else if e.TrySend? || e.IsrSend? {
      SendMoves(q, e);
    } else if e.TryReceive? || e.IsrReceive? {
      ReceiveMoves(q, e);
    } else {
      NoneMoves(q, e);
    }
  }

  lemma UnlockMoves(q: Queue, e: Event)
    requires Shape(q) && Enabled(q, e) && (e == UnlockTx || e == UnlockRx)
    ensures ReceiversAre(q, e, Step(q, e)) && SendersAre(q, e, Step(q, e))
  {
    UnlockWakesExactly(q);
  }

  lemma TaskMoves(q: Queue, e: Event)
    requires Enabled(q, e) && (e.Place? || e.Remove? || e.Delete?)
    ensures ReceiversAre(q, e, Step(q, e)) && SendersAre(q, e, Step(q, e))
  {
    hide InsertAt;
    hide RemoveOne;
    hide WithoutTask;
  }

  lemma SendMoves(q: Queue, e: Event)
    requires Shape(q) && Enabled(q, e) && (e.TrySend? || e.IsrSend?)
    ensures ReceiversAre(q, e, Step(q, e)) && SendersAre(q, e, Step(q, e))
  {
    hide RemoveOne;
    hide Posted;
  }

  lemma ReceiveMoves(q: Queue, e: Event)
    requires Shape(q) && Enabled(q, e) && (e.TryReceive? || e.IsrReceive?)
    ensures ReceiversAre(q, e, Step(q, e)) && SendersAre(q, e, Step(q, e))
  {
    hide RemoveOne;
  }

  lemma NoneMoves(q: Queue, e: Event)
    requires Shape(q) && Enabled(q, e) && !e.Place? && !e.Remove? && !e.Delete? && e != UnlockTx && e != UnlockRx
    requires !e.TrySend? && !e.IsrSend? && !e.TryReceive? && !e.IsrReceive?
    ensures ReceiversAre(q, e, Step(q, e)) && SendersAre(q, e, Step(q, e))
  {
  }

  // ---- conservation of tasks

  function WokenReceivers(q: Queue, events: seq<Event>): nat
    requires Possible(q, events)
    decreases |events|
  {
    if events == [] then 0 else WakesReceivers(q, events[0]) + WokenReceivers(Step(q, events[0]), events[1..])
  }

  // Calls that leave a message for somebody: sends accepted, and peeks that found one.
  function Offers(q: Queue, e: Event): nat {
    if Sends(q, e) || (e.TryReceive? && e.peek && q.messages > 0) then 1 else 0
  }

  function Offered(q: Queue, events: seq<Event>): nat
    requires Possible(q, events)
    decreases |events|
  {
    if events == [] then 0 else Offers(q, events[0]) + Offered(Step(q, events[0]), events[1..])
  }

  function WokenSenders(q: Queue, events: seq<Event>): nat
    requires Possible(q, events)
    decreases |events|
  {
    if events == [] then 0 else WakesSenders(q, events[0]) + WokenSenders(Step(q, events[0]), events[1..])
  }

  // Calls that leave room for somebody: receives served, and resets.
  function Freed(q: Queue, events: seq<Event>): nat
    requires Possible(q, events)
    decreases |events|
  {
    if events == [] then 0
    else (if Receives(q, events[0]) || events[0] == Reset then 1 else 0) + Freed(Step(q, events[0]), events[1..])
  }

  // No task is woken for nothing: over any run there are no more receivers woken than messages
  // sent and peeked at, and no more senders than messages received and resets; those of a time
  // when the queue is locked are answered when it is unlocked.
  lemma {:induction false} NoneWokenForNothing(q: Queue, events: seq<Event>)
    requires Shape(q) && Possible(q, events)
    ensures WokenReceivers(q, events) + After(q, events).posts <= Offered(q, events) + q.posts
    ensures WokenSenders(q, events) + After(q, events).removals <= Freed(q, events) + q.removals
    decreases |events|
  {
    if events != [] {
      ShapeKept(q, events[0]);
      NoneWokenForNothing(Step(q, events[0]), events[1..]);
    }
  }
}
