// When a transfer succeeds.  An image can be loaded exactly if it fits what its header declares;
// then the undisturbed exchange ends with success at both ends, and so does the undisturbed rest
// of any exchange that has not lost its way: a damaged message, a lost one or a lost answer is
// made good as long as the attempts last.
module XmodemProgress {

  import opened Bytes
  import opened BootImage
  import opened XmodemStore
  import opened XmodemFrame
  import opened XmodemProtocol

  // The header is good, the padded image has as many blocks as the declared one takes, and what
  // comes after the declared end is padding.
  predicate Loadable(image: seq<Byte>, dst: nat) {
    var p := Padded(image, Total(image));
    && image != [] && HasImage(p, dst) && Total(image) == (ImageSize(p, dst) + BLOCK_SIZE - 1) / BLOCK_SIZE
    && forall j :: ImageSize(p, dst) <= j < |p| ==> p[j] == PADDING
  }

  predicate Sendable(s: Sender) { s.kind == Python ==> Total(s.image) <= 255 }

  lemma {:induction false} PaddedPrefix(image: seq<Byte>, n: nat, m: nat)
    requires n <= m
    ensures n * BLOCK_SIZE <= |Padded(image, m)| && Padded(image, m)[..n * BLOCK_SIZE] == Padded(image, n)
    decreases m
  {
    if n < m {
      PaddedPrefix(image, n, m - 1);
    }
  }

  // Every block of such an image is taken in its turn, and all of them make the image complete.
  lemma BlockStorable(image: seq<Byte>, dst: nat, i: nat)
    requires Loadable(image, dst) && i < Total(image)
    ensures Storable(Padded(image, i), BlockOf(image, i), dst)
  {
    hide Padded;
    hide BlockOf;
    hide HasImage;
    hide ImageSize;
    hide Storable;
    var p, s, b := Padded(image, Total(image)), Padded(image, i), BlockOf(image, i);
    NextPadded(image, i);
    PaddedPrefix(image, i + 1, Total(image));
    PrefixStorable(p, s, b, dst);
  }

  lemma NextPadded(image: seq<Byte>, i: nat)
    ensures Padded(image, i) + BlockOf(image, i) == Padded(image, i + 1)
  {
  }

  lemma PrefixStorable(p: seq<Byte>, s: seq<Byte>, b: seq<Byte>, dst: nat)
    requires |b| == BLOCK_SIZE && |s| + |b| <= |p| && s + b == p[..|s| + |b|] && HasImage(p, dst)
    requires |p| < ImageSize(p, dst) + BLOCK_SIZE && forall j :: ImageSize(p, dst) <= j < |p| ==> p[j] == PADDING
    ensures Storable(s, b, dst)
  {
    hide ParseHeader;
    var all := s + b;
    assert all[..HEADER_SIZE] == p[..HEADER_SIZE];
    ImageOfPrefix(p, all, dst);
    forall j | |s| <= j < |all| && j >= ImageSize(all, dst) ensures all[j] == PADDING {
      assert all[j] == p[j];
    }
  }

  // ---- exchanges that have not lost their way

  // The sender has an attempt left, and the receiver can bear one more failure.
  predicate HasAttempt(s: Sender) { s.retries + 1 < s.limit }

  predicate Endures(r: Receiver) { r.retries + 1 < MAX_RETRIES }

  // What may be on its way while a block, or the end mark, awaits its acknowledgement.
  predicate BlockPending(s: Sender, r: Receiver, f: Flight) {
    r.status == Listening &&
    match f
    case Nothing => s.kind == Python && HasAttempt(s)
    case ToReceiver(_, damaged) => damaged ==> HasAttempt(s) && Endures(r)
    case ToSender(b) => b == ACK || (b == NAK && HasAttempt(s))
  }

  predicate EndPending(s: Sender, r: Receiver, f: Flight) {
    match f
    case Nothing => r.status == Listening && s.kind == Python && HasAttempt(s)
    case ToReceiver(_, damaged) => r.status == Listening && (damaged ==> s.kind == Python && HasAttempt(s) && Endures(r))
    case ToSender(b) => b == ACK || (b == NAK && r.status == Listening && s.kind == Python && HasAttempt(s))
  }

  ghost predicate Standing(y: System) {
    var s, r, f := y.sender, y.receiver, y.flight;
    && Inv(y) && Loadable(s.image, r.dst) && Sendable(s)
    && match s.state
       case Done => true
       case Failed => false
       case WaitRequest => r.status == Listening && (f == ToSender(CRC_REQUEST) || (f == Nothing && !y.synced))
       case WaitAck => BlockPending(s, r, f)
       case WaitEndAck => EndPending(s, r, f)
  }

  // What happens next if nothing goes wrong.
  function NextEvent(y: System): Event {
    match y.flight
    case ToReceiver(_, _) => Deliver(ERR_CRC)
    case ToSender(_) => Return
    case Nothing => if y.sender.state == WaitRequest then Request else SenderTimeout
  }

  // How far there is to go.
  function Rank(y: System): nat {
    var left: nat := if Total(y.sender.image) > y.sender.acked then Total(y.sender.image) - y.sender.acked else 0;
    var stage :=
      match y.flight
      case ToReceiver(_, damaged) => if damaged then 5 else 2
      case ToSender(b) => if b == NAK then 4 else 1
      case Nothing => 3;
    match y.sender.state
    case WaitRequest => 6 * (left + 3) + stage
    case WaitAck => 6 * (left + 2) + stage
    case WaitEndAck => 6 + stage
    case _ => 0
  }

  lemma DeliveredBlock(y: System)
    requires Standing(y) && y.flight.ToReceiver? && y.sender.state == WaitAck
    ensures var z := Step(y, Deliver(ERR_CRC));
            && z.sender == y.sender && z.receiver.status == Listening && z.receiver.dst == y.receiver.dst
            && z.flight == ToSender(if y.flight.damaged then NAK else ACK)
  {
    var s, r := y.sender, y.receiver;
    NumbersTellApart(r, s.acked);
    BlockStorable(s.image, r.dst, s.acked);
    hide Storable;
    hide Padded;
    hide BlockOf;
    hide HasImage;
    hide ImageSize;
    hide Complete;
    hide Expected;
    hide Accepted;
    hide Total;
    hide WellStored;
    hide Loadable;
  }

  lemma DeliveredEnd(y: System)
    requires Standing(y) && y.flight.ToReceiver? && y.sender.state == WaitEndAck
    ensures var z := Step(y, Deliver(ERR_CRC));
            && z.sender == y.sender && z.receiver.dst == y.receiver.dst
            && z.flight == (if y.flight.damaged then Nothing else ToSender(ACK))
            && z.receiver.status == if y.flight.damaged then Listening else Returned(OK)
  {
    hide Padded;
    hide HasImage;
    hide ParseHeader;
    hide WellStored;
  }

  lemma NextDelivered(y: System)
    requires Standing(y) && y.flight.ToReceiver? && y.sender.state != Done
    ensures Enabled(y, Deliver(ERR_CRC)) && Standing(Step(y, Deliver(ERR_CRC)))
    ensures Rank(Step(y, Deliver(ERR_CRC))) < Rank(y)
  {
    InvKept(y, Deliver(ERR_CRC));
    InvHere(y);
    if y.sender.state == WaitAck {
      DeliveredBlock(y);
    } else {
      DeliveredEnd(y);
    }
    hide Step;
    hide Inv;
    hide Loadable;
  }

  // In the states at issue nothing is on its way to a receiver before the request has come.
  lemma InvHere(y: System)
    requires Standing(y)
    ensures y.flight.ToReceiver? ==> y.sender.state != WaitRequest
    ensures y.sender.state == WaitAck ==> y.sender.acked < Total(y.sender.image)
  {
    hide Padded;
    hide Loadable;
  }

  lemma NextReturned(y: System)
    requires Standing(y) && y.flight.ToSender? && y.sender.state != Done
    ensures Enabled(y, Return) && Standing(Step(y, Return)) && Rank(Step(y, Return)) < Rank(y)
  {
    InvKept(y, Return);
    InvHere(y);
    ReturnIs(y);
    hide Step;
    hide Inv;
    hide BlockOf;
    hide Padded;
    hide HasImage;
    hide ImageSize;
  }

  lemma ReturnIs(y: System)
    requires y.flight.ToSender?
    ensures Enabled(y, Return) && Step(y, Return) == Launched(y, OnReply(y.sender, y.flight.byte))
  {
    hide OnReply;
    hide Launched;
  }

  lemma NextSent(y: System)
    requires Standing(y) && y.flight == Nothing && y.sender.state != Done
    ensures Enabled(y, NextEvent(y)) && Standing(Step(y, NextEvent(y))) && Rank(Step(y, NextEvent(y))) < Rank(y)
  {
    InvKept(y, NextEvent(y));
    hide Inv;
    hide BlockOf;
    hide Padded;
    hide Loadable;
  }

  lemma NextStands(y: System)
    requires Standing(y) && y.sender.state != Done
    ensures Enabled(y, NextEvent(y)) && Standing(Step(y, NextEvent(y))) && Rank(Step(y, NextEvent(y))) < Rank(y)
  {
    hide Standing;
    hide Step;
    hide Rank;
    hide Enabled;
    if y.flight.ToReceiver? {
      NextDelivered(y);
    } else if y.flight.ToSender? {
      NextReturned(y);
    } else {
      NextSent(y);
    }
  }

  // ---- the rest of the exchange

  // The events from here on, if nothing goes wrong any more.
  ghost function Undisturbed(y: System): seq<Event>
    requires Standing(y)
    decreases Rank(y)
  {
    if y.sender.state == Done then []
    else
      NextStands(y);
      [NextEvent(y)] + Undisturbed(Step(y, NextEvent(y)))
  }

  predicate Faultless(e: Event) { !e.Damage? && !e.Drop? && !e.GiveUp? }

  // It ends with success at both ends.
  lemma {:induction false} EndsWell(y: System)
    requires Standing(y)
    ensures Possible(y, Undisturbed(y)) && forall e <- Undisturbed(y) :: Faultless(e)
    ensures var z := After(y, Undisturbed(y)); z.sender.state == Done && z.receiver.status == Returned(OK)
    decreases Rank(y)
  {
    hide Rank;
    if y.sender.state == Done {
      DoneReturned(y);
    } else {
      hide Standing;
      hide Step;
      hide Enabled;
      NextStands(y);
      var n := Step(y, NextEvent(y));
      EndsWell(n);
      assert Undisturbed(y)[1..] == Undisturbed(n);
    }
  }

  lemma DoneReturned(y: System)
    requires Standing(y) && y.sender.state == Done
    ensures y.receiver.status == Returned(OK)
  {
    hide Padded;
    hide Loadable;
  }

  lemma StartStands(y: System)
    requires Start(y) && Loadable(y.sender.image, y.receiver.dst) && Sendable(y.sender)
    ensures Standing(y)
  {
    StartInv(y);
    hide Loadable;
    hide Inv;
  }

  // ---- exactly which images can be loaded

  // From the start: the request, every block and the end mark, each delivered and answered.
  lemma CleanExchange(y: System)
    requires Start(y) && Loadable(y.sender.image, y.receiver.dst) && Sendable(y.sender)
    ensures Standing(y) && Possible(y, Undisturbed(y)) && forall e <- Undisturbed(y) :: Faultless(e)
    ensures var z := After(y, Undisturbed(y));
            && z.sender.state == Done && z.receiver.status == Returned(OK)
            && z.receiver.stored == Padded(y.sender.image, Total(y.sender.image))
  {
    StartStands(y);
    EndsWell(y);
    hide Standing;
    hide Undisturbed;
    hide Start;
    DoneMeansLoaded(y, Undisturbed(y));
  }

  // An image the Python sender refuses is never sent.
  predicate NeverSent(s: Sender) { Sendable(s) || s.state == WaitRequest || s.state == XmodemProtocol.Failed }

  lemma {:induction false} Unsendable(y: System, events: seq<Event>)
    requires Possible(y, events) && NeverSent(y.sender)
    ensures NeverSent(After(y, events).sender) && After(y, events).sender.kind == y.sender.kind
    ensures After(y, events).sender.image == y.sender.image
    decreases |events|
  {
    if events != [] {
      UnsendableStep(y, events[0]);
      hide Step;
      Unsendable(Step(y, events[0]), events[1..]);
    }
  }

  lemma UnsendableStep(y: System, e: Event)
    requires Enabled(y, e) && NeverSent(y.sender)
    ensures NeverSent(Step(y, e).sender) && Step(y, e).sender.image == y.sender.image
    ensures Step(y, e).sender.kind == y.sender.kind
  {
    hide BlockOf;
    hide Storable;
    hide Complete;
  }

  // A transfer can come to a good end exactly if the image is loadable and the sender takes it.
  lemma CanSucceedExactly(y: System)
    requires Start(y)
    ensures (exists events :: Possible(y, events) && After(y, events).sender.state == Done) <==>
            Loadable(y.sender.image, y.receiver.dst) && Sendable(y.sender)
  {
    if Loadable(y.sender.image, y.receiver.dst) && Sendable(y.sender) {
      CleanExchange(y);
    }
    if exists events :: Possible(y, events) && After(y, events).sender.state == Done {
      var events :| Possible(y, events) && After(y, events).sender.state == Done;
      DoneWasLoadable(y, events);
    }
  }

  lemma DoneWasLoadable(y: System, events: seq<Event>)
    requires Start(y) && Possible(y, events) && After(y, events).sender.state == Done
    ensures Loadable(y.sender.image, y.receiver.dst) && Sendable(y.sender)
  {
    DoneMeansLoaded(y, events);
    StartInv(y);
    InvAlways(y, events);
    Unsendable(y, events);
    hide Possible;
    hide After;
    hide Loadable;
    WholeMeansLoadable(y.sender.image, After(y, events));
  }

  lemma WholeMeansLoadable(image: seq<Byte>, z: System)
    requires Inv(z) && z.sender.image == image && Complete(z.receiver)
    requires z.receiver.stored == Padded(image, Total(image))
    requires Total(image) == (ImageSize(z.receiver.stored, z.receiver.dst) + BLOCK_SIZE - 1) / BLOCK_SIZE
    ensures Loadable(image, z.receiver.dst)
  {
    hide Padded;
    hide ParseHeader;
  }

  // ---- faults

  // A fault the exchange can bear: a message or an answer is lost while the Python sender waits,
  // or a message is damaged, and both ends have attempts left.  The bench sender has no timeout,
  // and sends only blocks again.
  predicate Bearable(y: System, e: Event) {
    var s, r := y.sender, y.receiver;
    && r.status == Listening && HasAttempt(s)
    && ((e == Drop && s.kind == Python && (s.state == WaitAck || s.state == WaitEndAck))
        || (e == Damage && Endures(r) && y.flight.ToReceiver? && (s.state == WaitAck || (s.state == WaitEndAck && s.kind == Python))))
  }

  lemma FaultBorne(y: System, e: Event)
    requires Standing(y) && Bearable(y, e)
    ensures Enabled(y, e) && Standing(Step(y, e))
  {
    InvKept(y, e);
    hide Inv;
    hide Loadable;
  }

  // The exchange has gone without a fault so far.
  ghost predicate Calm(y: System) {
    && Standing(y) && y.sender.retries == 0 && y.receiver.retries == 0
    && (y.flight == Nothing ==> y.sender.state == WaitRequest || y.sender.state == Done)
    && (y.flight.ToReceiver? ==> !y.flight.damaged) && y.flight != ToSender(NAK)
  }

  lemma CalmDelivered(y: System)
    requires Calm(y) && y.flight.ToReceiver? && y.sender.state != Done
    ensures Step(y, Deliver(ERR_CRC)).receiver.retries == 0 && Step(y, Deliver(ERR_CRC)).sender == y.sender
    ensures Step(y, Deliver(ERR_CRC)).flight == ToSender(ACK)
  {
    InvHere(y);
    if y.sender.state == WaitAck {
      NumbersTellApart(y.receiver, y.sender.acked);
      DeliveredBlock(y);
    } else {
      DeliveredEnd(y);
    }
    hide Inv;
    hide Complete;
    hide Storable;
    hide Loadable;
  }

  lemma CalmNext(y: System)
    requires Calm(y) && y.sender.state != Done
    ensures Standing(y) && Enabled(y, NextEvent(y)) && Calm(Step(y, NextEvent(y)))
  {
    NextStands(y);
    if y.flight.ToReceiver? {
      CalmDelivered(y);
    }
    hide Standing;
    hide React;
    hide BlockOf;
  }

  lemma {:induction false} CalmAlways(y: System, n: nat)
    requires Calm(y) && n <= |Undisturbed(y)|
    ensures Possible(y, Undisturbed(y)[..n]) && Calm(After(y, Undisturbed(y)[..n]))
    decreases n
  {
    hide Calm;
    hide Step;
    hide Enabled;
    hide Standing;
    CalmStands(y);
    if n > 0 {
      CalmNext(y);
      var r := Step(y, NextEvent(y));
      CalmStands(r);
      assert Undisturbed(y)[..n][1..] == Undisturbed(r)[..n - 1];
      CalmAlways(r, n - 1);
    }
  }

  lemma CalmStands(y: System)
    requires Calm(y)
    ensures Standing(y)
  {
  }

  // Undisturbed from here on, the exchange ends with success at both ends.
  ghost predicate Succeeds(y: System) {
    && Standing(y) && Possible(y, Undisturbed(y))
    && var z := After(y, Undisturbed(y)); z.sender.state == Done && z.receiver.status == Returned(OK)
  }

  // So at any point of the exchange one such fault, an acknowledgement lost after any block among
  // them, leaves a transfer that comes to a good end if nothing more goes wrong.
  lemma OneFaultAnywhere(y: System, n: nat, e: Event) returns (z: System)
    requires Start(y) && Standing(y) && y.sender.limit >= 2 && n <= |Undisturbed(y)|
    ensures Possible(y, Undisturbed(y)[..n]) && z == After(y, Undisturbed(y)[..n])
    ensures Disturbs(z, e) ==> Enabled(z, e) && Succeeds(Step(z, e))
  {
    hide Standing;
    hide Calm;
    hide Step;
    hide Enabled;
    hide Start;
    StartCalm(y);
    CalmAlways(y, n);
    z := After(y, Undisturbed(y)[..n]);
    SameLimit(y, Undisturbed(y)[..n]);
    hide Undisturbed;
    hide Disturbs;
    hide Succeeds;
    if Disturbs(z, e) {
      FaultMadeGood(z, e);
    }
  }

  // While the sender waits for an acknowledgement: something is lost, or a block is damaged.
  predicate Disturbs(z: System, e: Event) {
    && z.receiver.status == Listening && (z.sender.state == WaitAck || z.sender.state == WaitEndAck)
    && ((e == Drop && z.sender.kind == Python) || (e == Damage && z.flight.ToReceiver? && z.flight.message.Block?))
  }

  lemma FaultMadeGood(z: System, e: Event)
    requires Calm(z) && z.sender.limit >= 2 && Disturbs(z, e)
    ensures Enabled(z, e) && Succeeds(Step(z, e))
  {
    CalmBears(z, e);
    hide Calm;
    hide Standing;
    hide Step;
    hide Enabled;
    hide Bearable;
    FaultBorne(z, e);
    EndsWell(Step(z, e));
  }

  lemma StartCalm(y: System)
    requires Start(y) && Standing(y)
    ensures Calm(y)
  {
    hide Standing;
  }

  lemma CalmBears(z: System, e: Event)
    requires Calm(z) && z.sender.limit >= 2 && Disturbs(z, e)
    ensures Standing(z) && Bearable(z, e)
  {
    hide Padded;
    hide Loadable;
  }

  lemma {:induction false} SameLimit(y: System, events: seq<Event>)
    requires Possible(y, events)
    ensures After(y, events).sender.limit == y.sender.limit
    decreases |events|
  {
    if events != [] {
      SameLimitStep(y, events[0]);
      hide Step;
      SameLimit(Step(y, events[0]), events[1..]);
    }
  }

  lemma SameLimitStep(y: System, e: Event)
    requires Enabled(y, e)
    ensures Step(y, e).sender.limit == y.sender.limit
  {
    hide BlockOf;
    hide React;
  }

  // The bench sender cannot make up for anything lost: with nothing on its way, and the receiver
  // past asking, no run brings the transfer to its end.
  predicate Stuck(y: System) {
    && y.sender.kind == Bench && y.synced
    && (y.sender.state == XmodemProtocol.Failed
        || ((y.sender.state == WaitAck || y.sender.state == WaitEndAck) && (y.flight == Nothing || y.flight == ToSender(CAN))))
  }

  lemma {:induction false} BenchLosesForGood(y: System, events: seq<Event>)
    requires Stuck(y) && Possible(y, events)
    ensures After(y, events).sender.state != Done
    decreases |events|
  {
    if events != [] {
      BenchLosesForGood(Step(y, events[0]), events[1..]);
    }
  }

  // ---- patience

  // Something other than the block wanted, the block before it and the end mark has come in.
  predicate Fails(r: Receiver, got: Got) {
    match got
    case BadBlock(_) => true
    case Junk => true
    case EndMark => false
    case GoodBlock(number, _) => number != Expected(r) && number != (Expected(r) + 255) % 256
  }

  // What it is answered with, as long as there is patience, and the code it ends with then.
  function AnswerTo(got: Got): Reply { if got == Junk then Silence else Say(NAK) }

  function CodeOf(got: Got): int { if got.BadBlock? then got.code else ERR_PROTOCOL }

  // The receiver after a series of such.
  ghost function AfterFailures(r: Receiver, gots: seq<Got>): Receiver {
    if gots == [] then r else React(AfterFailures(r, gots[..|gots| - 1]), gots[|gots| - 1]).receiver
  }

  // It stays as it is but for counting them, and gives up with the code of the sixteenth failure
  // since the last good block, cancelling the transfer.
  lemma {:induction false} GivesUpAtLast(r: Receiver, gots: seq<Got>, got: Got)
    requires r.status == Listening && r.retries == 0 && |gots| < 16
    requires Fails(r, got) && forall g <- gots :: Fails(r, g)
    ensures AfterFailures(r, gots) == r.(retries := |gots|)
    ensures React(AfterFailures(r, gots), got) ==
            if |gots| < 15 then Reaction(r.(retries := |gots| + 1), AnswerTo(got))
            else Reaction(r.(retries := 16, status := Returned(CodeOf(got))), Say(CAN))
    decreases |gots|
  {
    if gots != [] {
      GivesUpAtLast(r, gots[..|gots| - 1], gots[|gots| - 1]);
    }
    hide Storable;
    hide Complete;
  }

  // The sender after n refusals of its block.
  function AfterRefusals(s: Sender, n: nat): Sender {
    if n == 0 then s else OnReply(AfterRefusals(s, n - 1), NAK).sender
  }

  // It sends the same block again each time, and stops at the last of its attempts.
  lemma {:induction false} StopsAtLast(s: Sender, n: nat)
    requires s.state == WaitAck && s.retries == 0 && n < s.limit
    ensures AfterRefusals(s, n) == s.(retries := n)
    ensures OnReply(AfterRefusals(s, n), NAK) ==
            if n + 1 < s.limit then Move(s.(retries := n + 1), [Current(s)])
            else Move(s.(retries := n + 1, state := XmodemProtocol.Failed), [])
  {
    hide BlockOf;
    if n > 0 {
      StopsAtLast(s, n - 1);
    }
  }

  // ---- bytes that mean nothing

  // Nothing the sender waits for: before the request anything else, and afterwards, for the
  // simulator's sender, anything but an answer.
  predicate Stray(s: Sender, byte: Byte) {
    if s.state == WaitRequest then byte != CRC_REQUEST
    else s.kind == Bench && byte != ACK && byte != NAK && byte != CAN
  }

  function AfterBytes(s: Sender, bytes: seq<Byte>): Sender {
    if bytes == [] then s else OnReply(AfterBytes(s, bytes[..|bytes| - 1]), bytes[|bytes| - 1]).sender
  }

  // What the loader prints meanwhile does not disturb the transfer.
  lemma {:induction false} StrayBytesIgnored(s: Sender, bytes: seq<Byte>, byte: Byte)
    requires Stray(s, byte) && forall b <- bytes :: Stray(s, b)
    ensures AfterBytes(s, bytes) == s && OnReply(s, byte) == Move(s, [])
    decreases |bytes|
  {
    if bytes != [] {
      StrayBytesIgnored(s, bytes[..|bytes| - 1], bytes[|bytes| - 1]);
    }
  }
}
