// The stop-and-wait protocol between the boot loader and a sender, over a channel that carries
// one message at a time, may damage a message so that the receiver notices, and may drop one.
// A sender's timeout fires only when nothing is on its way.
module XmodemProtocol {

  import opened Bytes
  import opened BootImage
  import opened XmodemStore
  import opened XmodemFrame

  const OK := 0
  const ERR_TIMEOUT := -1
  const ERR_CANCELLED := -2
  const ERR_PROTOCOL := -3
  const ERR_IMAGE := -4
  const ERR_UART := -5
  const ERR_BLOCK_NUMBER := -6
  const ERR_CRC := -7
  const MAX_RETRIES := 16

  // ---- the receiver

  datatype Status = Listening | Returned(code: int)

  // The blocks stored so far, in one piece, and the failures since the last good block.
  datatype Receiver = Receiver(dst: nat, stored: seq<Byte>, retries: nat, status: Status)

  datatype Got = GoodBlock(number: Byte, data: seq<Byte>) | BadBlock(code: int) | Junk | EndMark

  datatype Reply = Silence | Say(byte: Byte)

  datatype Reaction = Reaction(receiver: Receiver, reply: Reply)

  function Accepted(r: Receiver): nat { |r.stored| / BLOCK_SIZE }

  // expected_block, an eight-bit counter that starts at one.
  function Expected(r: Receiver): Byte { (Accepted(r) + 1) % 256 }

  // A failure: ask again, or give up after too many.
  function Refuse(r: Receiver, code: int, reply: Reply): Reaction {
    if r.retries + 1 >= MAX_RETRIES then
      Reaction(r.(retries := r.retries + 1, status := Returned(code)), Say(CAN))
    else Reaction(r.(retries := r.retries + 1), reply)
  }

  ghost predicate Complete(r: Receiver) {
    HasImage(r.stored, r.dst) && |r.stored| >= ImageSize(r.stored, r.dst)
  }

  // What xmodem_load_boot_image makes of a frame, an end mark or a stray byte.
  ghost function React(r: Receiver, got: Got): Reaction {
    match got
    case BadBlock(code) => Refuse(r, code, Say(NAK))
    case Junk => Refuse(r, ERR_PROTOCOL, Silence)
    case EndMark =>
      if Complete(r) then Reaction(r.(status := Returned(OK)), Say(ACK))
      else Reaction(r.(status := Returned(ERR_IMAGE)), Say(CAN))
    case GoodBlock(number, data) =>
      if number == (Expected(r) + 255) % 256 then Reaction(r.(retries := 0), Say(ACK))
      else if number != Expected(r) then Refuse(r, ERR_PROTOCOL, Say(NAK))
      else if Storable(r.stored, data, r.dst) then
        Reaction(r.(stored := r.stored + data, retries := 0), Say(ACK))
      else Reaction(r.(status := Returned(ERR_IMAGE)), Say(CAN))
  }

  // ---- the senders

  datatype Kind = Bench | Python

  datatype State = WaitRequest | WaitAck | WaitEndAck | Done | Failed

  // `acked` blocks have been acknowledged; `limit` is the number of attempts for each message.
  datatype Sender = Sender(kind: Kind, image: seq<Byte>, limit: nat, acked: nat, retries: nat, state: State)

  datatype Message = Block(number: Byte, data: seq<Byte>) | End

  function Total(image: seq<Byte>): nat { (|image| + BLOCK_SIZE - 1) / BLOCK_SIZE }

  // Byte i of the image as it is sent: padded to whole blocks.
  function Sent(image: seq<Byte>, i: nat): Byte {
    if i < |image| then image[i] else PADDING
  }

  function BlockOf(image: seq<Byte>, i: nat): (b: seq<Byte>)
    ensures |b| == BLOCK_SIZE
  {
    seq<Byte>(BLOCK_SIZE, j requires 0 <= j < BLOCK_SIZE => Sent(image, i * BLOCK_SIZE + j))
  }

  function Padded(image: seq<Byte>, n: nat): (p: seq<Byte>)
    ensures |p| == n * BLOCK_SIZE
  {
    if n == 0 then [] else Padded(image, n - 1) + BlockOf(image, n - 1)
  }

  function Current(s: Sender): Message {
    Block((s.acked + 1) % 256, BlockOf(s.image, s.acked))
  }

  datatype Move = Move(sender: Sender, message: seq<Message>)

  // Send the same again, unless it has been tried often enough.
  function Again(s: Sender, m: Message): Move {
    if s.retries + 1 >= s.limit then Move(s.(retries := s.retries + 1, state := Failed), [])
    else Move(s.(retries := s.retries + 1), [m])
  }

  function Stop(s: Sender): Move { Move(s.(state := Failed), []) }

  // on_tx_byte, and the loops of send_block and send_image: a byte from the receiver.
  function OnReply(s: Sender, byte: Byte): Move {
    match s.state
    case Done => Move(s, [])
    case Failed => Move(s, [])
    case WaitRequest =>
      if byte != CRC_REQUEST then Move(s, [])
      else if s.image == [] || (s.kind == Python && Total(s.image) > 255) then Stop(s)
      else Move(s.(state := WaitAck), [Current(s)])
    case WaitAck =>
      if byte == ACK then
        var n := s.(acked := s.acked + 1, retries := 0);
        if n.acked >= Total(s.image) then Move(n.(state := WaitEndAck), [End]) else Move(n, [Current(n)])
      else if byte == NAK then Again(s, Current(s))
      else if byte == CAN || s.kind == Python then Stop(s)
      else Move(s, [])
    case WaitEndAck =>
      if byte == ACK then Move(s.(state := Done), [])
      else if byte == NAK && s.kind == Python then Again(s, End)
      else if byte == CAN || s.kind == Python then Stop(s)
      else Move(s, [])
  }

  // The bench sender waits for ever; the other one tries again.
  function OnTimeout(s: Sender): Move {
    if s.kind == Bench then Move(s, [])
    else
      match s.state
      case WaitAck => Again(s, Current(s))
      case WaitEndAck => Again(s, End)
      case WaitRequest => Stop(s)
      case _ => Move(s, [])
  }

  // ---- both, and the channel between them

  datatype Flight = Nothing | ToReceiver(message: Message, damaged: bool) | ToSender(byte: Byte)

  datatype System = System(sender: Sender, receiver: Receiver, flight: Flight, synced: bool)

  datatype Event =
    | Request                  // the receiver asks for the transfer to start
    | Deliver(code: int)       // a message reaches the receiver, who names damage `code`
    | Return                   // a reply reaches the sender
    | Damage
    | Drop
    | SenderTimeout
    | GiveUp(code: int)        // the receiver ends for a reason of its own

  predicate Enabled(y: System, e: Event) {
    match e
    case Request => y.flight == Nothing && !y.synced && y.receiver.status == Listening
    case Deliver(code) => y.flight.ToReceiver? && code != OK
    case Return => y.flight.ToSender?
    case Damage => y.flight.ToReceiver?
    case Drop => true
    case SenderTimeout => y.flight == Nothing
    case GiveUp(code) => y.flight == Nothing && y.receiver.status == Listening && code != OK
  }

  function Launched(y: System, m: Move): System {
    y.(sender := m.sender, flight := if m.message == [] then Nothing else ToReceiver(m.message[0], false))
  }

  // What the receiver makes of a message: a damaged block is consumed whole; a damaged end mark
  // is a stray byte, or one whose reception failed.
  function Understood(m: Message, damaged: bool, code: int): Got {
    match m
    case Block(n, d) => if damaged then BadBlock(code) else GoodBlock(n, d)
    case End => if !damaged then EndMark else if code == ERR_UART then BadBlock(code) else Junk
  }

  ghost function Step(y: System, e: Event): System
    requires Enabled(y, e)
  {
    match e
    case Request => y.(flight := ToSender(CRC_REQUEST))
    case Deliver(code) =>
      if y.receiver.status != Listening then y.(flight := Nothing)
      else
        var a := React(y.receiver, Understood(y.flight.message, y.flight.damaged, code));
        y.(receiver := a.receiver, synced := y.synced || y.flight.message.Block?,
           flight := if a.reply.Say? then ToSender(a.reply.byte) else Nothing)
    case Return => Launched(y, OnReply(y.sender, y.flight.byte))
    case Damage => y.(flight := y.flight.(damaged := true))
    case Drop => y.(flight := Nothing)
    case SenderTimeout => Launched(y, OnTimeout(y.sender))
    case GiveUp(code) => y.(receiver := y.receiver.(status := Returned(code)), flight := ToSender(CAN))
  }

  ghost predicate Start(y: System) {
    && y.sender.acked == 0 && y.sender.retries == 0 && y.sender.state == WaitRequest
    && y.receiver.stored == [] && y.receiver.retries == 0 && y.receiver.status == Listening
    && y.flight == Nothing && !y.synced
  }

  // ---- what every state keeps

  ghost predicate Inv(y: System) {
    var s, r := y.sender, y.receiver;
    && r.stored == Padded(s.image, Accepted(r)) && WellStored(r.stored, r.dst)
    && (r.status == Returned(OK) ==> Complete(r))
    && s.acked <= Accepted(r) <= s.acked + 1
    && Accepted(r) <= Total(s.image)
    && (s.state == WaitRequest ==> Accepted(r) == 0 && !y.flight.ToReceiver? && y.flight != ToSender(ACK))
    && (s.state == WaitAck ==>
          && s.acked < Total(s.image)
          && (y.flight.ToReceiver? ==> y.flight.message == Current(s))
          && (y.flight == ToSender(ACK) ==> Accepted(r) == s.acked + 1)
          && r.status != Returned(OK))
    && (s.state == WaitEndAck ==>
          && s.acked == Accepted(r) == Total(s.image)
          && (y.flight.ToReceiver? ==> y.flight.message == End)
          && (y.flight == ToSender(ACK) ==> r.status == Returned(OK)))
    && (s.state == Done ==> s.acked == Accepted(r) == Total(s.image) && r.status == Returned(OK))
    && (s.state == Done || s.state == Failed ==> !y.flight.ToReceiver?)
    && (s.state == WaitRequest ==> r.status != Returned(OK))
  }

  lemma StartInv(y: System)
    requires Start(y)
    ensures Inv(y)
  {
  }

  // The expected number tells the block wanted next from the one stored last, however often the
  // eight-bit counters have wrapped.
  lemma NumbersTellApart(r: Receiver, i: nat)
    requires i <= Accepted(r) <= i + 1
    ensures (i + 1) % 256 == Expected(r) <==> Accepted(r) == i
    ensures (i + 1) % 256 == (Expected(r) + 255) % 256 <==> Accepted(r) == i + 1
  {
  }

  lemma NextBlockStored(r: Receiver, image: seq<Byte>, i: nat)
    requires r.stored == Padded(image, i) && WellStored(r.stored, r.dst)
    requires Storable(r.stored, BlockOf(image, i), r.dst)
    ensures r.stored + BlockOf(image, i) == Padded(image, i + 1)
    ensures WellStored(r.stored + BlockOf(image, i), r.dst)
  {
    StorableKeeps(r.stored, BlockOf(image, i), r.dst);
  }

  lemma DeliverBlock(y: System, e: Event)
    requires Inv(y) && Enabled(y, e) && e.Deliver? && y.flight.message.Block? && y.receiver.status == Listening
    ensures Inv(Step(y, e))
  {
    hide WellStored;
    hide Storable;
    hide Padded;
    hide BlockOf;
    hide HasImage;
    hide ImageSize;
    hide Total;
    hide Expected;
    hide Accepted;
    hide Complete;
    var s, r := y.sender, y.receiver;
    NumbersTellApart(r, s.acked);
    if Accepted(r) == s.acked && Storable(r.stored, BlockOf(s.image, s.acked), r.dst) {
      NextBlockStored(r, s.image, s.acked);
      AcceptedPadded(r.(stored := r.stored + BlockOf(s.image, s.acked), retries := 0), s.image, s.acked + 1);
    }
    SameAccepted(r);
  }

  lemma AcceptedPadded(r: Receiver, image: seq<Byte>, n: nat)
    requires r.stored == Padded(image, n)
    ensures Accepted(r) == n
  {
    hide Padded;
  }

  lemma SameAccepted(r: Receiver)
    ensures forall q: Receiver :: q.stored == r.stored ==> Accepted(q) == Accepted(r)
    ensures forall q: Receiver :: q.stored == r.stored && q.dst == r.dst ==> (Complete(q) <==> Complete(r))
  {
    hide HasImage;
    hide ImageSize;
  }

  lemma DeliverEnd(y: System, e: Event)
    requires Inv(y) && Enabled(y, e) && e.Deliver? && y.flight.message.End? && y.receiver.status == Listening
    ensures Inv(Step(y, e))
  {
    hide WellStored;
    hide Padded;
    hide HasImage;
    hide ImageSize;
    hide Total;
  }

  lemma ReplyReturned(y: System, e: Event)
    requires Inv(y) && Enabled(y, e) && e.Return?
    ensures Inv(Step(y, e))
  {
    hide WellStored;
    hide Padded;
    hide BlockOf;
    hide Complete;
    if y.sender.state == WaitRequest {
      assert y.sender.image != [] ==> Total(y.sender.image) >= 1;
    }
  }

  lemma TimerFired(y: System, e: Event)
    requires Inv(y) && Enabled(y, e) && e.SenderTimeout?
    ensures Inv(Step(y, e))
  {
    hide WellStored;
    hide Padded;
    hide BlockOf;
    hide Complete;
  }

  lemma ChannelActed(y: System, e: Event)
    requires Inv(y) && Enabled(y, e)
    requires e.Request? || e.Damage? || e.Drop? || e.GiveUp? || (e.Deliver? && y.receiver.status != Listening)
    ensures Inv(Step(y, e))
  {
    hide WellStored;
    hide Padded;
    hide BlockOf;
    hide Complete;
  }

  lemma InvKept(y: System, e: Event)
    requires Inv(y) && Enabled(y, e)
    ensures Inv(Step(y, e))
  {
    hide Inv;
    hide Step;
    if e.Return? {
      ReplyReturned(y, e);
    } else if e.SenderTimeout? {
      TimerFired(y, e);
    } else if e.Deliver? && y.receiver.status == Listening {
      if y.flight.message.Block? {
        DeliverBlock(y, e);
      } else {
        DeliverEnd(y, e);
      }
    } else {
      ChannelActed(y, e);
    }
  }

  // ---- whole runs

  ghost predicate Possible(y: System, events: seq<Event>)
    decreases |events|
  {
    events == [] || (Enabled(y, events[0]) && Possible(Step(y, events[0]), events[1..]))
  }

  ghost function After(y: System, events: seq<Event>): System
    requires Possible(y, events)
    decreases |events|
  {
    if events == [] then y else After(Step(y, events[0]), events[1..])
  }

  lemma {:induction false} InvAlways(y: System, events: seq<Event>)
    requires Inv(y) && Possible(y, events)
    ensures Inv(After(y, events))
    ensures After(y, events).sender.image == y.sender.image && After(y, events).receiver.dst == y.receiver.dst
    decreases |events|
  {
    hide Inv;
    if events != [] {
      InvKept(y, events[0]);
      InvAlways(Step(y, events[0]), events[1..]);
    }
  }

  // For an image of any length and any behaviour of the channel: the receiver has accepted as
  // many blocks as the sender has had acknowledged or one more, and what it has stored is always
  // the beginning of the padded image, so the wrapping block numbers never let in a wrong block.
  lemma AlwaysInStep(y: System, events: seq<Event>)
    requires Start(y) && Possible(y, events)
    ensures var z := After(y, events);
            && z.sender.acked <= Accepted(z.receiver) <= z.sender.acked + 1
            && z.receiver.stored == Padded(y.sender.image, Accepted(z.receiver))
            && Accepted(z.receiver) <= Total(y.sender.image)
  {
    StartInv(y);
    InvAlways(y, events);
  }

  // A sender that is done has a receiver that returned success with the whole padded image
  // stored, as far as the header declares it.
  lemma DoneMeansLoaded(y: System, events: seq<Event>)
    requires Start(y) && Possible(y, events) && After(y, events).sender.state == Done
    ensures var r := After(y, events).receiver;
            && r.status == Returned(OK) && Complete(r)
            && r.stored == Padded(y.sender.image, Total(y.sender.image))
            && Total(y.sender.image) == (ImageSize(r.stored, r.dst) + BLOCK_SIZE - 1) / BLOCK_SIZE
  {
    StartInv(y);
    InvAlways(y, events);
    var r := After(y, events).receiver;
    WholeImageStored(r.stored, r.dst);
  }

  lemma {:induction false} PaddedAt(image: seq<Byte>, n: nat, j: nat)
    requires j < n * BLOCK_SIZE
    ensures Padded(image, n)[j] == Sent(image, j)
    decreases n
  {
    var m := (n - 1) * BLOCK_SIZE;
    if j < m {
      PaddedAt(image, n - 1, j);
    } else {
      assert Padded(image, n)[j] == BlockOf(image, n - 1)[j - m];
    }
  }

  // What is then in memory is exactly the payload of the image file if and only if the header
  // declares the size the file has.
  lemma LoadedExactly(image: seq<Byte>, dst: nat)
    requires |image| >= HEADER_SIZE
    requires var p := Padded(image, Total(image)); WellStored(p, dst) && HasImage(p, dst) && |p| >= ImageSize(p, dst)
    ensures var p := Padded(image, Total(image));
            ImageSize(p, dst) == |image| <==>
              && (forall a :: a in Loaded(p, dst) <==> dst <= a < dst + |image| - HEADER_SIZE)
              && (forall a <- Loaded(p, dst) :: Loaded(p, dst)[a] == Sent(image, HEADER_SIZE + a - dst))
  {
    var p := Padded(image, Total(image));
    WholeImageStored(p, dst);
    var n := ImageSize(p, dst);
    forall a <- Loaded(p, dst) ensures Loaded(p, dst)[a] == Sent(image, HEADER_SIZE + a - dst) {
      PaddedAt(image, Total(image), HEADER_SIZE + a - dst);
    }
    if n < |image| {
      assert dst + n - HEADER_SIZE !in Loaded(p, dst);
    } else if n > |image| {
      assert dst + |image| - HEADER_SIZE in Loaded(p, dst);
    }
  }
}
