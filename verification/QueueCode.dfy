// The critical sections of queue.c as code over the queue's fields.  The item bytes are the
// subject of QueueStorage; here a queue is its count, its two lock counts and its two event
// lists.  The ghost fields keep what the claims of QueueProtocol mention.
module QueueCode {

  import opened ListModel
  import opened QueueProtocol
  import opened Shelves

  class EventQueue {
    const length: nat
    const itemSize: nat
    var messages: nat
    var txLock: int
    var rxLock: int
    var waitingToReceive: seq<Task>
    var waitingToSend: seq<Task>
    ghost var live: set<Task>
    ghost var phase: Phase
    ghost var wokenRx: seq<Task>
    ghost var wokenTx: seq<Task>
    ghost var posts: nat
    ghost var removals: nat

    ghost function View(): Queue
      reads this
    {
      Queue(length, itemSize == 0, messages, txLock, rxLock, waitingToReceive, waitingToSend,
            live, phase, wokenRx, wokenTx, posts, removals)
    }

    constructor (length: nat, itemSize: nat, ghost live: set<Task>)
      requires length >= 1
      ensures Fresh(View()) && View().length == length && View().weightless == (itemSize == 0)
      ensures View().live == live
    {
      this.length, this.itemSize := length, itemSize;
      messages, txLock, rxLock := 0, UNLOCKED, UNLOCKED;
      waitingToReceive, waitingToSend := [], [];
      this.live, phase := live, Nobody;
      wokenRx, wokenTx, posts, removals := [], [], 0, 0;
    }

    // xTaskRemoveFromEventList on the list of waiting receivers: the head is the task of
    // highest priority.
    method WakeReceiver() returns (woken: Task)
      requires waitingToReceive != []
      modifies this`waitingToReceive, this`wokenRx
      ensures woken == old(waitingToReceive)[0] && View() == WakeRx(old(View()))
    {
      woken := waitingToReceive[0];
      waitingToReceive := waitingToReceive[1..];
      wokenRx := wokenRx + [woken];
    }

    method WakeSender() returns (woken: Task)
      requires waitingToSend != []
      modifies this`waitingToSend, this`wokenTx
      ensures woken == old(waitingToSend)[0] && View() == WakeTx(old(View()))
    {
      woken := waitingToSend[0];
      waitingToSend := waitingToSend[1..];
      wokenTx := wokenTx + [woken];
    }

    // The count of prvCopyDataToQueue.
    method Post(overwrite: bool)
      modifies this`messages
      ensures messages == Posted(old(View()), overwrite)
    {
      var count := messages;
      if itemSize != 0 && overwrite {
        if count > 0 {
          count := count - 1;
        }
      }
      messages := count + 1;
    }

    // The critical section at the top of the loop of xQueueGenericSend.
    method TrySend(ghost t: Task, overwrite: bool) returns (sent: bool)
      requires Enabled(View(), Event.TrySend(t, overwrite))
      modifies this
      ensures View() == Step(old(View()), Event.TrySend(t, overwrite))
      ensures sent == (old(messages) < length || overwrite)
      ensures sent && !overwrite ==> messages == old(messages) + 1
      ensures !sent ==> messages == old(messages) && waitingToReceive == old(waitingToReceive)
    {
      wokenTx := RemoveOne(wokenTx, t);
      if messages < length || overwrite {
        Post(overwrite);
        if waitingToReceive != [] {
          var _ := WakeReceiver();
        }
        sent := true;
      } else {
        sent := false;
      }
    }

    // The critical section at the top of the loops of xQueueReceive and xQueuePeek.
    method TryReceive(ghost t: Task, peek: bool) returns (received: bool)
      requires Enabled(View(), Event.TryReceive(t, peek))
      modifies this
      ensures View() == Step(old(View()), Event.TryReceive(t, peek))
      ensures received == (old(messages) > 0)
      ensures messages == old(messages) - if received && !peek then 1 else 0
      ensures peek || !received ==> waitingToSend == old(waitingToSend)
      ensures !peek || !received ==> waitingToReceive == old(waitingToReceive)
    {
      wokenRx := RemoveOne(wokenRx, t);
      received := messages > 0;
      if received {
        if peek {
          if waitingToReceive != [] {
            var _ := WakeReceiver();
          }
        } else {
          messages := messages - 1;
          if waitingToSend != [] {
            var _ := WakeSender();
          }
        }
      }
    }

    // xQueueGenericSendFromISR; `tasks` is uxTaskGetNumberOfTasks.
    method SendFromISR(overwrite: bool, tasks: nat) returns (sent: bool)
      requires Enabled(View(), IsrSend(overwrite)) && tasks == |live|
      modifies this
      ensures View() == Step(old(View()), IsrSend(overwrite))
      ensures sent == Accepts(old(View()), overwrite)
    {
      sent := messages < length || overwrite;
      if sent {
        var lock := txLock;
        Post(overwrite);
        if lock == UNLOCKED {
          if waitingToReceive != [] {
            var _ := WakeReceiver();
          }
        } else {
          if lock < tasks {
            txLock := lock + 1;
          }
          posts := posts + 1;
        }
      }
    }

    // xQueueReceiveFromISR
    method ReceiveFromISR(tasks: nat) returns (received: bool)
      requires tasks == |live|
      modifies this
      ensures View() == Step(old(View()), IsrReceive) && received == (old(messages) > 0)
    {
      received := messages > 0;
      if received {
        var lock := rxLock;
        messages := messages - 1;
        if lock == UNLOCKED {
          if waitingToSend != [] {
            var _ := WakeSender();
          }
        } else {
          if lock < tasks {
            rxLock := lock + 1;
          }
          removals := removals + 1;
        }
      }
    }

    // vTaskSuspendAll and prvLockQueue
    method LockQueue(ghost t: Task, ghost side: Side)
      requires Enabled(View(), Lock(t, side))
      modifies this
      ensures View() == Step(old(View()), Lock(t, side))
    {
      if rxLock == UNLOCKED {
        rxLock := 0;
      }
      if txLock == UNLOCKED {
        txLock := 0;
      }
      phase := Locked(t, side);
    }

    // prvIsQueueEmpty and prvIsQueueFull
    method StillBlocks(side: Side) returns (blocks: bool)
      requires phase.Locked? && phase.side == side
      modifies this`phase
      ensures View() == Step(old(View()), Check)
      ensures blocks == phase.Checked?
    {
      if side == Rx {
        blocks := messages == 0;
      } else {
        blocks := messages == length;
      }
      phase := if blocks then Checked(phase.task, side) else Leaving;
    }

    // vTaskPlaceOnEventList, with the place its priority gives the task in the list.
    method PlaceOnEventList(t: Task, side: Side, at: nat)
      requires phase == Checked(t, side) && Enabled(View(), Place(at))
      modifies this
      ensures View() == Step(old(View()), Place(at))
    {
      if side == Rx {
        waitingToReceive := InsertAt(waitingToReceive, at, t);
      } else {
        waitingToSend := InsertAt(waitingToSend, at, t);
      }
      phase := Leaving;
    }

    // The first critical section of prvUnlockQueue.
    method UnlockTx()
      requires phase == Leaving
      modifies this
      ensures View() == Step(old(View()), Event.UnlockTx)
    {
      var lock := txLock;
      ghost var n := 0;
      ghost var wait := waitingToReceive;
      while lock > 0
        invariant n <= |wait| && waitingToReceive == wait[n..]
        invariant wokenRx == old(wokenRx) + wait[..n]
        invariant lock == old(txLock) - n && (n > 0 ==> lock >= 0)
        invariant View() == old(View()).(waitRx := waitingToReceive, wokenRx := wokenRx)
        decreases lock
      {
        if waitingToReceive != [] {
          var _ := WakeReceiver();
          n := n + 1;
        } else {
          break;
        }
        lock := lock - 1;
      }
      assert n == Min(if old(txLock) > 0 then old(txLock) else 0, |wait|);
      txLock := UNLOCKED;
      posts, phase := 0, TxOpen;
    }

    // The second critical section of prvUnlockQueue.
    method UnlockRx()
      requires phase == TxOpen
      modifies this
      ensures View() == Step(old(View()), Event.UnlockRx)
    {
      var lock := rxLock;
      ghost var n := 0;
      ghost var wait := waitingToSend;
      while lock > 0
        invariant n <= |wait| && waitingToSend == wait[n..]
        invariant wokenTx == old(wokenTx) + wait[..n]
        invariant lock == old(rxLock) - n && (n > 0 ==> lock >= 0)
        invariant View() == old(View()).(waitTx := waitingToSend, wokenTx := wokenTx)
        decreases lock
      {
        if waitingToSend != [] {
          var _ := WakeSender();
          n := n + 1;
          lock := lock - 1;
        } else {
          break;
        }
      }
      assert n == Min(if old(rxLock) > 0 then old(rxLock) else 0, |wait|);
      rxLock := UNLOCKED;
      removals, phase := 0, Nobody;
    }

    // xQueueGenericReset on a queue in use.
    method Reset()
      requires phase == Nobody && Shape(View())
      modifies this
      ensures View() == Step(old(View()), Event.Reset)
    {
      messages, rxLock, txLock := 0, UNLOCKED, UNLOCKED;
      if waitingToSend != [] {
        var _ := WakeSender();
      }
    }
  }
}
