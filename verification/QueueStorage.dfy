// The byte storage behind a kernel queue: a ring of `length` slots of `itemSize` bytes, a
// write position, a read position that trails the next item by one slot, and a count.
// Positions are offsets from the head of the storage.
module QueueStorage {

  import opened Bytes

  datatype Position = Back | Front | Overwrite

  // k reduced modulo n, for the small multiples that occur.
  function Wrap(k: nat, n: nat): (w: nat)
    requires k < 3 * n
    ensures w < n
  {
    if k < n then k else if k < 2 * n then k - n else k - 2 * n
  }

  lemma WrapIsModulo(k: nat, n: nat)
    requires k < 3 * n
    ensures Wrap(k, n) == k % n
  {
    var q := k / n;
    assert k == q * n + k % n;
    if q >= 3 {
      AtLeast(q, 3, n);
      assert false;
    }
  }

  lemma {:induction false} AtLeast(a: nat, b: nat, n: nat)
    requires a >= b
    ensures a * n >= b * n
    decreases a
  {
    if a > b {
      AtLeast(a - 1, b, n);
      assert a * n == (a - 1) * n + n;
    }
  }

  // The n items after slot r, in reading order.
  function Window<T>(slots: seq<T>, r: nat, n: nat): (items: seq<T>)
    requires r < |slots| && n <= |slots|
    ensures |items| == n
  {
    seq(n, i requires 0 <= i < n => slots[Wrap(r + 1 + i, |slots|)])
  }

  lemma WindowPushBack<T>(slots: seq<T>, r: nat, n: nat, x: T)
    requires r < |slots| && n < |slots|
    ensures var w := Wrap(r + 1 + n, |slots|);
            Window(slots[w := x], r, n + 1) == Window(slots, r, n) + [x]
  {
    var w, before := Wrap(r + 1 + n, |slots|), Window(slots, r, n);
    var a, b := Window(slots[w := x], r, n + 1), before + [x];
    forall i | 0 <= i <= n ensures a[i] == b[i] {
      assert a[i] == slots[w := x][Wrap(r + 1 + i, |slots|)];
      if i < n {
        assert b[i] == before[i] == slots[Wrap(r + 1 + i, |slots|)];
        assert Wrap(r + 1 + i, |slots|) != w;
      }
    }
  }

  lemma WindowPushFront<T>(slots: seq<T>, r: nat, n: nat, x: T)
    requires r < |slots| && n < |slots|
    ensures Window(slots[r := x], if r == 0 then |slots| - 1 else r - 1, n + 1) == [x] + Window(slots, r, n)
  {
    var r', before := if r == 0 then |slots| - 1 else r - 1, Window(slots, r, n);
    var a, b := Window(slots[r := x], r', n + 1), [x] + before;
    forall i | 0 <= i <= n ensures a[i] == b[i] {
      assert a[i] == slots[r := x][Wrap(r' + 1 + i, |slots|)];
      if i > 0 {
        assert b[i] == before[i - 1] == slots[Wrap(r + 1 + (i - 1), |slots|)];
        assert Wrap(r' + 1 + i, |slots|) == Wrap(r + 1 + (i - 1), |slots|) != r;
      } else {
        assert Wrap(r' + 1, |slots|) == r;
      }
    }
  }

  lemma WindowPop<T>(slots: seq<T>, r: nat, n: nat)
    requires r < |slots| && 0 < n <= |slots|
    ensures var r' := Wrap(r + 1, |slots|);
            Window(slots, r, n) == [slots[r']] + Window(slots, r', n - 1)
  {
    var r' := Wrap(r + 1, |slots|);
    var after := Window(slots, r', n - 1);
    var a, b := Window(slots, r, n), [slots[r']] + after;
    forall i | 0 <= i < n ensures a[i] == b[i] {
      assert a[i] == slots[Wrap(r + 1 + i, |slots|)];
      if i > 0 {
        assert b[i] == after[i - 1] == slots[Wrap(r' + 1 + (i - 1), |slots|)];
        assert Wrap(r' + 1 + (i - 1), |slots|) == Wrap(r + 1 + i, |slots|);
      }
    }
  }

  // What a send does to the items held.
  function WithItem<T>(items: seq<T>, x: T, position: Position): seq<T> {
    match position
    case Back => items + [x]
    case Front => [x] + items
    case Overwrite => [x]
  }

  // Overwriting is only allowed on a queue of one item.
  predicate Accepts(length: nat, count: nat, position: Position) {
    count < length || position == Overwrite
  }

  // ---- whole runs of queue operations on the items

  datatype Op<T> = Put(item: T, position: Position) | Take | Look | Clear

  // The items held after a run, and all the items it accepted and handed out, in order.
  datatype Run<T> = Run(held: seq<T>, accepted: seq<T>, taken: seq<T>)

  function Apply<T>(length: nat, r: Run<T>, op: Op<T>): Run<T> {
    match op
    case Put(x, p) =>
      if Accepts(length, |r.held|, p) then Run(WithItem(r.held, x, p), r.accepted + [x], r.taken) else r
    case Take =>
      if r.held == [] then r else Run(r.held[1..], r.accepted, r.taken + [r.held[0]])
    case Look => r
    case Clear => r.(held := [])
  }

  function After<T>(length: nat, ops: seq<Op<T>>): Run<T> {
    if ops == [] then Run([], [], []) else Apply(length, After(length, ops[..|ops| - 1]), ops[|ops| - 1])
  }

  // Never more items than slots, and sending to the back and taking from the front is first
  // in, first out: what was taken followed by what is held is what was accepted.
  lemma {:induction false} FirstInFirstOut<T>(length: nat, ops: seq<Op<T>>)
    requires length >= 1
    requires forall op <- ops :: op.Put? && op.position == Overwrite ==> length == 1
    ensures |After(length, ops).held| <= length
    ensures (forall op <- ops :: !op.Clear? && (op.Put? ==> op.position == Back)) ==>
              After(length, ops).taken + After(length, ops).held == After(length, ops).accepted
  {
    if ops != [] {
      var init, op := ops[..|ops| - 1], ops[|ops| - 1];
      FirstInFirstOut(length, init);
      var r, q := After(length, init), After(length, ops);
      if op.Put? && op.position == Back && q.accepted != r.accepted {
        assert r.taken + (r.held + [op.item]) == (r.taken + r.held) + [op.item];
      } else if op.Take? && r.held != [] {
        assert (r.taken + [r.held[0]]) + r.held[1..] == r.taken + r.held;
      }
    }
  }

  lemma SlotsApart(a: nat, b: nat, size: nat)
    requires a < b
    ensures a * size + size <= b * size
  {
    AtLeast(b, a + 1, size);
    assert (a + 1) * size == a * size + size;
  }

  lemma NextSlot(k: nat, length: nat, size: nat)
    requires k < length
    ensures size == 0 ==> Wrap(k + 1, length) * size == k * size
    ensures size > 0 ==> Wrap(k + 1, length) * size ==
                         if k * size + size >= length * size then 0 else k * size + size
  {
    if k + 1 < length {
      SlotsApart(k + 1, length, size);
    }
    assert (k + 1) * size == k * size + size;
  }

  lemma PreviousSlot(k: nat, length: nat, size: nat)
    requires k < length && size > 0
    ensures (if k == 0 then length - 1 else k - 1) * size ==
            if k * size - size < 0 then length * size - size else k * size - size
  {
    if k > 0 {
      SlotsApart(0, k, size);
      assert (k - 1) * size == k * size - size;
    } else {
      assert (length - 1) * size == length * size - size;
    }
  }

  // Storage of `length` slots of `size` bytes.
  predicate Sized(bytes: seq<Byte>, length: nat, size: nat) { |bytes| == length * size }

  function Slot(bytes: seq<Byte>, length: nat, size: nat, k: nat): (item: seq<Byte>)
    requires Sized(bytes, length, size) && k < length
    ensures |item| == size
  {
    SlotsApart(k, length, size);
    bytes[k * size..k * size + size]
  }

  function SlotsOf(bytes: seq<Byte>, length: nat, size: nat): (s: seq<seq<Byte>>)
    requires Sized(bytes, length, size)
    ensures |s| == length
  {
    seq(length, k requires 0 <= k < length => Slot(bytes, length, size, k))
  }

  lemma OtherSlot(before: seq<Byte>, after: seq<Byte>, length: nat, size: nat, k: nat, s: nat)
    requires Sized(before, length, size) && Sized(after, length, size) && s < length && k < length && s != k
    requires forall i :: 0 <= i < |before| && !(k * size <= i < k * size + size) ==> after[i] == before[i]
    ensures Slot(after, length, size, s) == Slot(before, length, size, s)
  {
    if s < k {
      SlotsApart(s, k, size);
    } else {
      SlotsApart(k, s, size);
    }
    SlotsApart(s, length, size);
    var a, b := Slot(after, length, size, s), Slot(before, length, size, s);
    forall i | 0 <= i < size ensures a[i] == b[i] {
      assert a[i] == after[s * size + i] && b[i] == before[s * size + i];
    }
  }

  // Writing an item's bytes at k * size writes slot k and no other.
  lemma WriteSlot(before: seq<Byte>, after: seq<Byte>, length: nat, size: nat, k: nat, item: seq<Byte>)
    requires Sized(before, length, size) && Sized(after, length, size) && k < length && |item| == size
    requires forall i :: 0 <= i < |before| && !(k * size <= i < k * size + size) ==> after[i] == before[i]
    requires k * size + size <= |after| && after[k * size..k * size + size] == item
    ensures SlotsOf(after, length, size) == SlotsOf(before, length, size)[k := item]
  {
    var a, b := SlotsOf(after, length, size), SlotsOf(before, length, size)[k := item];
    forall s | 0 <= s < length ensures a[s] == b[s] {
      if s != k {
        OtherSlot(before, after, length, size, k, s);
      }
    }
  }

  // Items of no size are all alike.
  lemma Weightless(bytes: seq<Byte>, length: nat, r: nat, n: nat)
    requires Sized(bytes, length, 0) && r < length && n <= length
    ensures Window(SlotsOf(bytes, length, 0), r, n) == seq(n, _ => [])
  {
    var a := Window(SlotsOf(bytes, length, 0), r, n);
    forall i | 0 <= i < n ensures a[i] == [] {
      assert a[i] == Slot(bytes, length, 0, Wrap(r + 1 + i, length));
    }
  }

  lemma WeightlessPut(bytes: seq<Byte>, length: nat, r: nat, n: nat, item: seq<Byte>, position: Position)
    requires Sized(bytes, length, 0) && r < length && n < length && item == []
    requires position == Overwrite ==> length == 1
    ensures var slots := SlotsOf(bytes, length, 0);
            Window(slots, r, n + 1) == WithItem(Window(slots, r, n), item, position)
  {
    Weightless(bytes, length, r, n);
    Weightless(bytes, length, r, n + 1);
    var slots := SlotsOf(bytes, length, 0);
    var a, b := Window(slots, r, n + 1), WithItem(Window(slots, r, n), item, position);
    assert |b| == n + 1;
    forall i | 0 <= i <= n ensures a[i] == b[i] {
    }
  }

  lemma OneSlot<T>(slots: seq<T>, x: T)
    requires |slots| == 1 && slots[0] == x
    ensures Window(slots, 0, 1) == [x]
  {
    assert Window(slots, 0, 1)[0] == slots[Wrap(1, 1)];
  }

  class Storage {
    const length: nat
    const itemSize: nat
    const bytes: array<Byte>
    var writeTo: int
    var readFrom: int
    var messages: nat
    ghost var readSlot: nat
    ghost var writeSlot: nat

    ghost predicate Aligned()
      reads this
    {
      && length >= 1
      && bytes.Length == length * itemSize
      && readSlot < length && readFrom == readSlot * itemSize
      && writeSlot < length && writeTo == writeSlot * itemSize
    }

    // Both positions lie on item boundaries inside the storage, and the write slot is where
    // the read slot and the count say.
    ghost predicate Valid()
      reads this
    {
      && Aligned()
      && messages <= length
      && writeSlot == Wrap(readSlot + 1 + messages, length)
    }

    ghost function Slots(): (s: seq<seq<Byte>>)
      requires bytes.Length == length * itemSize
      reads bytes
      ensures |s| == length
    {
      SlotsOf(bytes[..], length, itemSize)
    }

    ghost function Contents(): seq<seq<Byte>>
      requires Valid()
      reads this, bytes
    {
      Window(Slots(), readSlot, messages)
    }

    constructor (length: nat, itemSize: nat)
      requires length >= 1
      ensures this.length == length && this.itemSize == itemSize && fresh(bytes)
      ensures Valid() && Contents() == []
    {
      this.length, this.itemSize := length, itemSize;
      bytes := new Byte[length * itemSize](_ => 0);
      messages, writeTo := 0, 0;
      readFrom := (length - 1) * itemSize;
      readSlot, writeSlot := length - 1, 0;
    }

    // xQueueGenericReset: forget the items.
    method Reset()
      requires Aligned()
      modifies this
      ensures Valid() && Contents() == []
    {
      messages, writeTo := 0, 0;
      readFrom := (length - 1) * itemSize;
      readSlot, writeSlot := length - 1, 0;
    }

    // memcpy into slot k of the storage.
    method CopyIn(at: int, item: seq<Byte>, ghost k: nat)
      requires bytes.Length == length * itemSize && k < length && at == k * itemSize
      requires |item| == itemSize
      modifies bytes
      ensures Slots() == old(Slots())[k := item]
    {
      SlotsApart(k, length, itemSize);
      for j := 0 to itemSize
        invariant forall i :: at <= i < at + j ==> bytes[i] == item[i - at]
        invariant forall i :: 0 <= i < bytes.Length && !(at <= i < at + j) ==> bytes[i] == old(bytes[i])
      {
        bytes[at + j] := item[j];
      }
      assert bytes[..][at..at + itemSize] == item;
      WriteSlot(old(bytes[..]), bytes[..], length, itemSize, k, item);
    }

    // memcpy out of slot k of the storage.
    method CopyOut(at: int, ghost k: nat) returns (item: seq<Byte>)
      requires bytes.Length == length * itemSize && k < length && at == k * itemSize
      ensures item == Slots()[k]
    {
      SlotsApart(k, length, itemSize);
      item := [];
      for j := 0 to itemSize
        invariant item == bytes[at..at + j]
      {
        item := item + [bytes[at + j]];
      }
      assert item == bytes[..][at..at + itemSize];
    }

    method WriteBack(item: seq<Byte>)
      requires Valid() && messages < length && |item| == itemSize > 0
      modifies bytes, this`writeTo, this`writeSlot
      ensures Aligned() && writeSlot == Wrap(readSlot + 1 + (messages + 1), length)
      ensures Window(Slots(), readSlot, messages + 1) == old(Contents()) + [item]
    {
      WindowPushBack(Slots(), readSlot, messages, item);
      NextSlot(writeSlot, length, itemSize);
      CopyIn(writeTo, item, writeSlot);
      writeTo := writeTo + itemSize;
      if writeTo >= length * itemSize {
        writeTo := 0;
      }
      writeSlot := Wrap(writeSlot + 1, length);
    }

    method WriteFront(item: seq<Byte>)
      requires Valid() && |item| == itemSize > 0
      modifies bytes, this`readFrom, this`readSlot
      ensures Aligned() && readSlot == if old(readSlot) == 0 then length - 1 else old(readSlot) - 1
      ensures messages < length ==> Window(Slots(), readSlot, messages + 1) == [item] + old(Contents())
      ensures length == 1 ==> Window(Slots(), readSlot, 1) == [item]
    {
      if messages < length {
        WindowPushFront(Slots(), readSlot, messages, item);
      }
      PreviousSlot(readSlot, length, itemSize);
      CopyIn(readFrom, item, readSlot);
      readFrom := readFrom - itemSize;
      if readFrom < 0 {
        readFrom := length * itemSize - itemSize;
      }
      readSlot := if readSlot == 0 then length - 1 else readSlot - 1;
      if length == 1 {
        OneSlot(Slots(), item);
      }
    }

    // prvCopyDataToQueue.  With items of no size an overwrite is counted as one more item, so
    // it replaces the item held exactly when there is none or the items have a size.
    method CopyDataToQueue(item: seq<Byte>, position: Position)
      requires Valid() && |item| == itemSize
      requires Accepts(length, messages, position) && (position == Overwrite ==> length == 1)
      modifies this, bytes
      ensures Aligned()
      ensures Valid() <==> itemSize > 0 || old(messages) == 0 || position != Overwrite
      ensures Valid() ==> Contents() == WithItem(old(Contents()), item, position)
      ensures !Valid() ==> messages == 2 && length == 1
    {
      var count := messages;
      ghost var before := Contents();
      if itemSize == 0 {
        writeSlot := if count < length then Wrap(readSlot + 1 + (count + 1), length) else 0;
        if count < length {
          WeightlessPut(bytes[..], length, readSlot, count, item, position);
        }
      } else if position == Back {
        WriteBack(item);
      } else {
        WriteFront(item);
        if position == Overwrite {
          if count > 0 {
            count := count - 1;
          }
        }
      }
      messages := count + 1;
    }

    // prvCopyDataFromQueue; the caller takes the count down.
    method CopyDataFromQueue() returns (item: seq<Byte>)
      requires Valid() && messages > 0
      modifies this`readFrom, this`readSlot
      ensures Aligned() && readSlot == Wrap(old(readSlot) + 1, length)
      ensures item == old(Contents())[0]
    {
      item := [];
      WindowPop(Slots(), readSlot, messages);
      NextSlot(readSlot, length, itemSize);
      readSlot := Wrap(readSlot + 1, length);
      if itemSize != 0 {
        readFrom := readFrom + itemSize;
        if readFrom >= length * itemSize {
          readFrom := 0;
        }
        item := CopyOut(readFrom, readSlot);
      }
    }

    // The queue part of xQueueGenericSend and xQueueGenericSendFromISR.
    method Send(item: seq<Byte>, position: Position) returns (sent: bool)
      requires Valid() && |item| == itemSize && (position == Overwrite ==> length == 1)
      modifies this, bytes
      ensures sent == Accepts(length, old(messages), position)
      ensures !sent ==> Valid() && Contents() == old(Contents())
      ensures sent ==> (Valid() <==> itemSize > 0 || old(messages) == 0 || position != Overwrite)
      ensures sent && Valid() ==> Contents() == WithItem(old(Contents()), item, position)
    {
      sent := messages < length || position == Overwrite;
      if sent {
        CopyDataToQueue(item, position);
      }
    }

    // The queue part of xQueueReceive and xQueueReceiveFromISR.
    method Receive() returns (received: bool, item: seq<Byte>)
      requires Valid()
      modifies this
      ensures Valid() && received == (old(messages) > 0)
      ensures received ==> old(Contents()) == [item] + Contents()
      ensures !received ==> Contents() == old(Contents()) == []
    {
      received, item := messages > 0, [];
      if received {
        WindowPop(Slots(), readSlot, messages);
        item := CopyDataFromQueue();
        messages := messages - 1;
      }
    }

    // The queue part of xQueuePeek: read, then put the read position back.
    method Peek() returns (received: bool, item: seq<Byte>)
      requires Valid()
      modifies this
      ensures Valid() && received == (messages > 0) && Contents() == old(Contents())
      ensures received ==> item == Contents()[0]
    {
      received, item := messages > 0, [];
      if received {
        var original := readFrom;
        ghost var slot := readSlot;
        item := CopyDataFromQueue();
        readFrom, readSlot := original, slot;
      }
    }
  }
}
