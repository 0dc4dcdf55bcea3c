// xmodem_load_boot_image: the receive loop of the boot loader.  What getc_timeout returns is an
// input the program is given: a byte, or one of the two negative codes.
module XmodemReceiver {

  import opened Bytes
  import opened Crc
  import opened BootImage
  import opened XmodemStore
  import opened XmodemFrame
  import opened XmodemProgress
  import opened XmodemProtocol

  predicate IsInput(c: int) { 0 <= c < 256 || c == ERR_TIMEOUT || c == ERR_UART }

  type Input = f: nat -> int | forall i :: IsInput(f(i)) witness (_ => 0)

  // n bytes come in from position i on.
  predicate BytesAt(input: Input, i: nat, n: nat) {
    forall j :: i <= j < i + n ==> input(j) >= 0
  }

  function Raw(input: Input, i: nat, n: nat): (s: seq<Byte>)
    requires BytesAt(input, i, n)
    ensures |s| == n && forall j :: 0 <= j < n ==> s[j] == input(i + j)
  {
    if n == 0 then [] else Raw(input, i, n - 1) + [input(i + n - 1)]
  }

  lemma RawSlice(input: Input, i: nat)
    requires BytesAt(input, i, FRAME_REST)
    ensures BytesAt(input, i + 2, BLOCK_SIZE)
    ensures Raw(input, i, FRAME_REST)[2..2 + BLOCK_SIZE] == Raw(input, i + 2, BLOCK_SIZE)
  {
    var a, b := Raw(input, i, FRAME_REST)[2..2 + BLOCK_SIZE], Raw(input, i + 2, BLOCK_SIZE);
    forall j | 0 <= j < BLOCK_SIZE ensures a[j] == b[j] {
      assert a[j] == Raw(input, i, FRAME_REST)[2 + j];
    }
  }

  // What receive_block makes of the input after a start byte: whole frames are decoded, and an
  // input error inside the frame is reported.
  ghost predicate Heard(input: Input, i: nat, got: Got) {
    if BytesAt(input, i, FRAME_REST) then
      match Decode(Raw(input, i, FRAME_REST))
      case Good(number, data) => got == GoodBlock(number, data)
      case BadNumber => got == BadBlock(ERR_BLOCK_NUMBER)
      case BadCrc => got == BadBlock(ERR_CRC)
    else got == BadBlock(ERR_TIMEOUT) || got == BadBlock(ERR_UART)
  }

  // What a control byte at position i announces to the protocol, if anything.
  ghost predicate Announces(input: Input, i: nat, got: seq<Got>) {
    var c := input(i);
    if c == SOH then |got| == 1 && Heard(input, i + 1, got[0])
    else if c == EOT then got == [EndMark]
    else if c == ERR_UART then got == [BadBlock(ERR_UART)]
    else if c == ERR_TIMEOUT || c == CAN then got == []
    else got == [Junk]
  }

  lemma OneMoreAccepted(r: Receiver, data: seq<Byte>)
    requires WellStored(r.stored, r.dst) && |data| == BLOCK_SIZE
    ensures Expected(r.(stored := r.stored + data)) == (Expected(r) + 1) % 256
  {
    WholeBlocks(r.stored, r.dst);
    hide WellStored;
    OneMoreBlock(|r.stored|);
  }

  lemma WholeBlocks(s: seq<Byte>, dst: nat)
    requires WellStored(s, dst)
    ensures |s| % BLOCK_SIZE == 0
  {
    hide HasImage;
    hide ImageSize;
  }

  lemma OneMoreBlock(n: nat)
    requires n % BLOCK_SIZE == 0
    ensures ((n + BLOCK_SIZE) / BLOCK_SIZE + 1) % 256 == ((n / BLOCK_SIZE + 1) % 256 + 1) % 256
  {
    assert (n + BLOCK_SIZE) / BLOCK_SIZE == n / BLOCK_SIZE + 1;
  }

  // What the program puts out for a reaction; giving up takes two bytes.
  function Output(reply: Reply): seq<Byte> {
    match reply
    case Silence => []
    case Say(b) => if b == CAN then [CAN, CAN] else [b]
  }

  // ---- the input of an undisturbed transfer

  const FRAME_SIZE := FRAME_REST + 1

  // The frame of block b of the image comes in from position i on.
  predicate FrameAt(input: Input, i: nat, image: seq<Byte>, b: nat) {
    BytesAt(input, i, FRAME_SIZE) && Raw(input, i, FRAME_SIZE) == Frame((b + 1) % 256, BlockOf(image, b))
  }

  // All its frames and the end mark do.
  predicate Transfers(input: Input, i: nat, image: seq<Byte>) {
    && (forall b :: 0 <= b < Total(image) ==> FrameAt(input, FrameStart(i, b), image, b))
    && input(FrameStart(i, Total(image))) == EOT
  }

  function FrameStart(i: nat, b: nat): nat {
    if b == 0 then i else FrameStart(i, b - 1) + FRAME_SIZE
  }

  lemma FrameHeard(input: Input, i: nat, image: seq<Byte>, b: nat, got: Got)
    requires FrameAt(input, i, image, b)
    ensures input(i) == SOH && BytesAt(input, i + 1, FRAME_REST)
    ensures Heard(input, i + 1, got) ==> got == GoodBlock((b + 1) % 256, BlockOf(image, b))
  {
    hide Decode;
    hide BlockOf;
    var number, data := (b + 1) % 256, BlockOf(image, b);
    var f := Frame(number, data);
    assert f[0] == SOH && input(i + 0) == Raw(input, i, FRAME_SIZE)[0];
    FrameRoundTrip(number, data);
    RawTail(input, i, FRAME_SIZE);
  }

  lemma RawTail(input: Input, i: nat, n: nat)
    requires n > 0 && BytesAt(input, i, n)
    ensures BytesAt(input, i + 1, n - 1) && Raw(input, i, n)[1..] == Raw(input, i + 1, n - 1)
  {
    var a, b := Raw(input, i, n)[1..], Raw(input, i + 1, n - 1);
    forall j | 0 <= j < n - 1 ensures a[j] == b[j] {
      assert a[j] == Raw(input, i, n)[j + 1];
    }
  }

  // The receiver takes the next block of an image that can be loaded.
  lemma NextTaken(r: Receiver, image: seq<Byte>, b: nat)
    requires Loadable(image, r.dst) && b < Total(image) && r.stored == Padded(image, b)
    ensures React(r, GoodBlock((b + 1) % 256, BlockOf(image, b))) ==
            Reaction(r.(stored := Padded(image, b + 1), retries := 0), Say(ACK))
  {
    BlockStorable(image, r.dst, b);
    NextPadded(image, b);
    hide Padded;
    hide BlockOf;
    hide Storable;
    hide Loadable;
    hide Total;
    NumbersTellApart(r, b);
  }

  // All its blocks make it complete.
  lemma AllTaken(r: Receiver, image: seq<Byte>)
    requires Loadable(image, r.dst) && r.stored == Padded(image, Total(image))
    ensures Complete(r)
  {
    hide Padded;
    hide ParseHeader;
  }

  class BootReceiver {
    const input: Input
    const loader: Loader
    var position: nat
    var sent: seq<Byte>
    var expectedBlock: Byte
    var syncStarted: bool
    var syncRetries: nat
    var blockRetries: nat
    var sizeOut: nat
    ghost var stored: seq<Byte>
    ghost var status: Status

    ghost function View(): Receiver
      reads this
    {
      Receiver(loader.dst, stored, blockRetries, status)
    }

    ghost predicate Valid()
      reads this, loader, loader.header
    {
      loader.Valid(stored) && expectedBlock == Expected(View()) && status == Listening
    }

    constructor (input: Input, dst: nat)
      ensures Valid() && fresh(loader) && fresh(loader.header)
      ensures this.input == input && View() == Receiver(dst, [], 0, Listening) && sent == []
    {
      this.input := input;
      loader := new Loader(dst);
      position, sent, expectedBlock, sizeOut := 0, [], 1, 0;
      syncStarted, syncRetries, blockRetries := false, 0, 0;
      stored, status := [], Listening;
    }

    method Getc() returns (c: int)
      modifies this`position
      ensures c == input(old(position)) && position == old(position) + 1 && IsInput(c)
    {
      c := input(position);
      position := position + 1;
    }

    // The data loop of receive_block.
    method ReadData() returns (rc: int, data: seq<Byte>)
      modifies this`position
      ensures old(position) <= position
      ensures rc == OK <==> BytesAt(input, old(position), BLOCK_SIZE)
      ensures rc == OK ==> data == Raw(input, old(position), BLOCK_SIZE) && position == old(position) + BLOCK_SIZE
      ensures rc == OK || rc == ERR_TIMEOUT || rc == ERR_UART
    {
      var buffer := new Byte[BLOCK_SIZE](_ => 0);
      rc, data := OK, [];
      for i := 0 to BLOCK_SIZE
        invariant position == old(position) + i && BytesAt(input, old(position), i)
        invariant forall j :: 0 <= j < i ==> buffer[j] == input(old(position) + j)
      {
        var byte := Getc();
        if byte < 0 {
          rc := byte;
          return;
        }
        buffer[i] := byte;
      }
      data := buffer[..];
      var raw := Raw(input, old(position), BLOCK_SIZE);
      assert forall j :: 0 <= j < BLOCK_SIZE ==> data[j] == raw[j];
    }

    // receive_block
    method ReceiveBlock() returns (rc: int, data: seq<Byte>, blockNo: Byte)
      modifies this`position
      ensures Heard(input, old(position), if rc == OK then GoodBlock(blockNo, data) else BadBlock(rc))
      ensures rc == OK ==> |data| == BLOCK_SIZE
      ensures rc <= OK
      ensures BytesAt(input, old(position), FRAME_REST) ==> position == old(position) + FRAME_REST
    {
      hide CrcWord;
      hide BitXor;
      hide Raw;
      ghost var start := position;
      data, blockNo := [], 0;
      var block := Getc();
      var inverse := Getc();
      if block < 0 || inverse < 0 {
        assert !BytesAt(input, start, FRAME_REST) by {
          assert input(start) < 0 || input(start + 1) < 0;
        }
        rc := if block < 0 then block else inverse;
        return;
      }
      rc, data := ReadData();
      if rc < 0 {
        PartOfFrame(start);
        return;
      }
      var high := Getc();
      var low := Getc();
      if high < 0 || low < 0 {
        assert !BytesAt(input, start, FRAME_REST) by {
          assert input(start + 2 + BLOCK_SIZE) < 0 || input(start + 3 + BLOCK_SIZE) < 0;
        }
        rc := if high < 0 then high else low;
        return;
      }
      WholeFrame(start);
      if BitXor(block, inverse) != 0xFF {
        rc := ERR_BLOCK_NUMBER;
        return;
      }
      var received := high * 256 + low;
      var calculated := Crc16C(data);
      if received != calculated {
        rc := ERR_CRC;
        return;
      }
      blockNo := block;
    }

    lemma PartOfFrame(i: nat)
      requires !BytesAt(input, i + 2, BLOCK_SIZE)
      ensures !BytesAt(input, i, FRAME_REST)
    {
    }

    lemma WholeFrame(i: nat)
      requires input(i) >= 0 && input(i + 1) >= 0 && BytesAt(input, i + 2, BLOCK_SIZE)
      requires input(i + 2 + BLOCK_SIZE) >= 0 && input(i + 3 + BLOCK_SIZE) >= 0
      ensures BytesAt(input, i, FRAME_REST)
      ensures var raw := Raw(input, i, FRAME_REST);
              && raw[0] == input(i) && raw[1] == input(i + 1)
              && raw[2..2 + BLOCK_SIZE] == Raw(input, i + 2, BLOCK_SIZE)
              && raw[2 + BLOCK_SIZE] == input(i + 2 + BLOCK_SIZE)
              && raw[3 + BLOCK_SIZE] == input(i + 3 + BLOCK_SIZE)
    {
      RawSlice(input, i);
    }

    // The frames a receive loop may end up in.
    ghost predicate Confined()
      reads this, loader
    {
      forall a <- loader.memory :: loader.dst <= a < LOAD_LIMIT
    }

    method Put(b: Byte)
      modifies this`sent
      ensures sent == old(sent) + [b]
    {
      sent := sent + [b];
    }

    method Cancel()
      modifies this`sent
      ensures sent == old(sent) + [CAN, CAN]
    {
      Put(CAN);
      Put(CAN);
    }

    // One more failure: give up with the code, or go on with the reply.
    method Fail(code: int, reply: Reply) returns (ended: bool)
      requires Valid() && reply != Say(CAN)
      modifies this`sent, this`blockRetries, this`status
      ensures View() == Refuse(old(View()), code, reply).receiver
      ensures sent == old(sent) + Output(Refuse(old(View()), code, reply).reply)
      ensures ended <==> status != Listening
      ensures ended ==> status == Returned(code)
      ensures !ended ==> Valid()
    {
      blockRetries := blockRetries + 1;
      ended := blockRetries >= MAX_RETRIES;
      if ended {
        Cancel();
        status := Returned(code);
      } else if reply.Say? {
        Put(reply.byte);
      }
    }

    // The block is the one expected: store it, or give the image up.
    method StoreNext(data: seq<Byte>) returns (ended: bool)
      requires Valid() && |data| == BLOCK_SIZE
      modifies this, loader, loader.header
      ensures View() == (if Storable(old(stored), data, loader.dst) then
                           old(View()).(stored := old(stored) + data, retries := 0)
                         else old(View()).(status := Returned(ERR_IMAGE)))
      ensures sent == old(sent) + (if Storable(old(stored), data, loader.dst) then [ACK] else [CAN, CAN])
      ensures position == old(position) && syncStarted == old(syncStarted) && syncRetries == old(syncRetries)
      ensures Confined()
      ensures ended <==> status == Returned(ERR_IMAGE)
      ensures !ended ==> Valid()
    {
      OneMoreAccepted(View(), data);
      hide Storable;
      hide Loaded;
      hide WellStored;
      hide HasImage;
      hide ImageSize;
      hide Expected;
      var ok := loader.StoreBlock(data, stored);
      ended := !ok;
      if ok {
        stored := stored + data;
        InWindow(stored, loader.dst);
        expectedBlock := (expectedBlock + 1) % 256;
        blockRetries := 0;
        Put(ACK);
      } else {
        Cancel();
        status := Returned(ERR_IMAGE);
      }
    }

    // The end of the loop body: a frame has come in whole and undamaged.
    method TakeBlock(blockNo: Byte, data: seq<Byte>) returns (ended: bool, rc: int)
      requires Valid() && |data| == BLOCK_SIZE
      modifies this, loader, loader.header
      ensures View() == React(old(View()), GoodBlock(blockNo, data)).receiver
      ensures sent == old(sent) + Output(React(old(View()), GoodBlock(blockNo, data)).reply)
      ensures position == old(position) && syncStarted == old(syncStarted) && syncRetries == old(syncRetries)
      ensures Confined()
      ensures ended ==> status == Returned(rc) && rc != OK
      ensures !ended ==> Valid()
    {
      hide Storable;
      hide Loaded;
      hide WellStored;
      hide HasImage;
      InWindow(stored, loader.dst);
      ended, rc := false, OK;
      if blockNo == (expectedBlock + 255) % 256 {
        Put(ACK);
        blockRetries := 0;
        return;
      }
      if blockNo != expectedBlock {
        ended := Fail(ERR_PROTOCOL, Say(NAK));
        return ended, ERR_PROTOCOL;
      }
      ended := StoreNext(data);
      rc := if ended then ERR_IMAGE else OK;
    }

    // The end mark: success, with the size of the payload, exactly if the image is complete.
    method TakeEnd() returns (rc: int)
      requires Valid()
      modifies this`sent, this`status, this`sizeOut
      ensures View() == React(old(View()), EndMark).receiver
      ensures sent == old(sent) + Output(React(old(View()), EndMark).reply)
      ensures status == Returned(rc)
      ensures rc == OK <==> Complete(old(View()))
      ensures sent == old(sent) + if rc == OK then [ACK] else [CAN, CAN]
      ensures rc == OK ==> Complete(View()) && sizeOut == ImageSize(stored, loader.dst) - HEADER_SIZE
    {
      if !loader.headerReady || loader.streamOffset < loader.imageSize {
        Cancel();
        status := Returned(ERR_IMAGE);
        return ERR_IMAGE;
      }
      Put(ACK);
      sizeOut := loader.imageSize - HEADER_SIZE;
      status := Returned(OK);
      rc := OK;
    }

    // Ask for the transfer to start, until a frame has begun or often enough.
    method AskToStart()
      modifies this`sent, this`syncRetries
      ensures var asking := !syncStarted && old(syncRetries) < MAX_RETRIES;
              && syncRetries == old(syncRetries) + (if asking then 1 else 0)
              && sent == old(sent) + (if asking then [CRC_REQUEST] else [])
    {
      if !syncStarted && syncRetries < MAX_RETRIES {
        Put(CRC_REQUEST);
        syncRetries := syncRetries + 1;
      }
    }

    // A frame after its start byte.
    method TakeFrame() returns (ended: bool, rc: int, ghost got: Got)
      requires Valid() && Confined()
      modifies this, loader, loader.header
      ensures Heard(input, old(position), got)
      ensures BytesAt(input, old(position), FRAME_REST) ==> position == old(position) + FRAME_REST
      ensures View() == React(old(View()), got).receiver
      ensures sent == old(sent) + Output(React(old(View()), got).reply)
      ensures Confined() && syncStarted && syncRetries == old(syncRetries)
      ensures ended ==> status == Returned(rc) && rc != OK
      ensures !ended ==> Valid()
    {
      hide Heard;
      syncStarted := true;
      var code, data, blockNo := ReceiveBlock();
      if code != OK {
        got := BadBlock(code);
        ended := Fail(code, Say(NAK));
        rc := code;
      } else {
        got := GoodBlock(blockNo, data);
        ended, rc := TakeBlock(blockNo, data);
      }
    }

    // One turn of the loop.  If it gets hold of something, the receiver reacts as the protocol
    // says; otherwise it goes on as before, unless it runs out of patience or is cancelled.
    method Round() returns (ended: bool, rc: int, ghost asked: seq<Byte>, ghost got: seq<Got>)
      requires Valid() && Confined()
      modifies this, loader, loader.header
      ensures asked == if !old(syncStarted) && old(syncRetries) < MAX_RETRIES then [CRC_REQUEST] else []
      ensures Announces(input, old(position), got)
      ensures input(old(position)) == SOH && BytesAt(input, old(position) + 1, FRAME_REST) ==>
                position == old(position) + FRAME_SIZE
      ensures syncRetries == old(syncRetries) + |asked|
      ensures syncStarted <==> old(syncStarted) || input(old(position)) == SOH
      ensures input(old(position)) == EOT ==>
                && ended && (rc == OK <==> Complete(old(View())))
                && sent == old(sent) + asked + if rc == OK then [ACK] else [CAN, CAN]
      ensures got != [] ==>
                && View() == React(old(View()), got[0]).receiver
                && sent == old(sent) + asked + Output(React(old(View()), got[0]).reply)
                && (ended ==> status == Returned(rc))
      ensures got == [] ==> stored == old(stored) && blockRetries == old(blockRetries)
      ensures got == [] ==>
                if input(old(position)) == CAN then
                  sent == old(sent) + asked && (ended <==> input(old(position) + 1) == CAN) && (ended ==> rc == ERR_CANCELLED)
                else
                  && (ended <==> syncRetries >= MAX_RETRIES) && (ended ==> rc == ERR_TIMEOUT)
                  && sent == old(sent) + asked + (if ended then [CAN, CAN] else [])
      ensures Confined()
      ensures ended && rc == OK ==> Complete(View()) && sizeOut == ImageSize(stored, loader.dst) - HEADER_SIZE
      ensures ended && rc == OK ==> loader.memory == Loaded(stored, loader.dst) && WellStored(stored, loader.dst)
      ensures !ended ==> Valid()
    {
      hide Heard;
      asked := if !syncStarted && syncRetries < MAX_RETRIES then [CRC_REQUEST] else [];
      ended, rc, got := false, OK, [];
      AskToStart();
      var control := Getc();
      if control == ERR_TIMEOUT {
        if syncRetries >= MAX_RETRIES {
          Cancel();
          status := Returned(ERR_TIMEOUT);
          ended, rc := true, ERR_TIMEOUT;
        }
      } else if control == ERR_UART {
        got := [BadBlock(ERR_UART)];
        ended := Fail(ERR_UART, Say(NAK));
        rc := ERR_UART;
      } else if control == CAN {
        var second := Getc();
        if second == CAN {
          status := Returned(ERR_CANCELLED);
          ended, rc := true, ERR_CANCELLED;
        }
      } else if control == EOT {
        got := [EndMark];
        rc := TakeEnd();
        ended := true;
      } else if control == SOH {
        ghost var frame;
        ended, rc, frame := TakeFrame();
        got := [frame];
      } else {
        got := [Junk];
        ended := Fail(ERR_PROTOCOL, Silence);
        rc := ERR_PROTOCOL;
      }
    }

    // The first `turn` blocks of an undisturbed transfer have been taken.
    ghost predicate Keeping(start: nat, image: seq<Byte>, turn: nat)
      reads this, loader
    {
      && Loadable(image, loader.dst) && Transfers(input, start, image) && turn <= Total(image)
      && stored == Padded(image, turn) && position == FrameStart(start, turn)
    }

    // One turn; of such a transfer, it takes the next block or the end mark.
    method NextTurn(ghost clean: bool, ghost start: nat, ghost image: seq<Byte>, ghost turn: nat) returns (ended: bool, rc: int)
      requires Valid() && Confined() && (clean ==> Keeping(start, image, turn))
      modifies this, loader, loader.header
      ensures Confined() && (!ended ==> Valid())
      ensures ended && rc == OK ==> Complete(View()) && sizeOut == ImageSize(stored, loader.dst) - HEADER_SIZE
      ensures ended && rc == OK ==> loader.memory == Loaded(stored, loader.dst) && WellStored(stored, loader.dst)
      ensures clean && turn < Total(image) ==> !ended && Keeping(start, image, turn + 1)
      ensures clean && turn == Total(image) ==> ended && rc == OK && stored == Padded(image, turn)
    {
      hide Heard;
      hide Loadable;
      hide Padded;
      hide BlockOf;
      hide Total;
      hide Complete;
      hide React;
      hide FrameAt;
      hide BytesAt;
      hide HasImage;
      hide ImageSize;
      hide Loaded;
      hide WellStored;
      hide Loader.Valid;
      hide Expected;
      ghost var before, from := View(), position;
      ghost var asked, got;
      if clean {
        if turn < Total(image) {
          assert FrameAt(input, FrameStart(start, turn), image, turn);
          NextTaken(before, image, turn);
          FrameHeard(input, position, image, turn, Junk);
        } else {
          AllTaken(before, image);
        }
      }
      ended, rc, asked, got := Round();
      if clean && turn < Total(image) {
        FrameHeard(input, from, image, turn, got[0]);
      } else if clean {
        EndReaction(before);
      }
    }

    lemma EndReaction(r: Receiver)
      ensures React(r, EndMark).receiver.stored == r.stored
    {
      hide Complete;
    }

    // xmodem_load_boot_image, for as many turns as `turns`.  Whatever comes in: on success the
    // header was good, as many blocks were stored as its image takes and the rest was padding,
    // memory holds exactly the payload, whose size is reported; and nothing is ever written
    // outside the space from the destination up to the limit.
    // And there is success where there can be: what comes in is an image that can be loaded.
    method LoadBootImage(turns: nat, ghost image: seq<Byte>) returns (ended: bool, rc: int)
      requires Valid() && Confined()
      modifies this, loader, loader.header
      ensures Loadable(image, loader.dst) && Transfers(input, old(position), image) && old(stored) == [] && turns > Total(image) ==>
                ended && rc == OK && stored == Padded(image, Total(image))
      ensures Confined()
      ensures ended && rc == OK ==>
                && HasImage(stored, loader.dst)
                && |stored| / BLOCK_SIZE == (ImageSize(stored, loader.dst) + BLOCK_SIZE - 1) / BLOCK_SIZE
                && sizeOut == ImageSize(stored, loader.dst) - HEADER_SIZE
                && (forall j :: ImageSize(stored, loader.dst) <= j < |stored| ==> stored[j] == PADDING)
                && (forall a :: a in loader.memory <==> loader.dst <= a < loader.dst + sizeOut)
                && (forall a <- loader.memory :: loader.memory[a] == stored[HEADER_SIZE + a - loader.dst])
    {
      hide Loadable;
      hide Transfers;
      hide Padded;
      hide Total;
      hide Loaded;
      hide WellStored;
      hide HasImage;
      hide ImageSize;
      hide Loader.Valid;
      hide Expected;
      ended, rc := false, OK;
      var turn := 0;
      PaddedNone(image);
      ghost var clean := Loadable(image, loader.dst) && Transfers(input, position, image) && stored == [];
      ghost var start := position;
      while !ended && turn < turns
        invariant Confined() && (!ended ==> Valid())
        invariant clean && turn <= Total(image) ==> !ended && Keeping(start, image, turn)
        invariant clean && turn > Total(image) ==> ended && rc == OK && stored == Padded(image, Total(image))
        invariant ended && rc == OK ==> Complete(View()) && sizeOut == ImageSize(stored, loader.dst) - HEADER_SIZE
        invariant ended && rc == OK ==> loader.memory == Loaded(stored, loader.dst) && WellStored(stored, loader.dst)
      {
        ended, rc := NextTurn(clean, start, image, turn);
        turn := turn + 1;
      }
      if ended && rc == OK {
        AllStored();
      }
    }

    lemma PaddedNone(image: seq<Byte>)
      ensures Padded(image, 0) == []
    {
    }

    // What a complete image means for memory.
    lemma AllStored()
      requires Complete(View()) && sizeOut == ImageSize(stored, loader.dst) - HEADER_SIZE
      requires loader.memory == Loaded(stored, loader.dst) && WellStored(stored, loader.dst)
      ensures HasImage(stored, loader.dst)
      ensures |stored| / BLOCK_SIZE == (ImageSize(stored, loader.dst) + BLOCK_SIZE - 1) / BLOCK_SIZE
      ensures forall j :: ImageSize(stored, loader.dst) <= j < |stored| ==> stored[j] == PADDING
      ensures forall a :: a in loader.memory <==> loader.dst <= a < loader.dst + sizeOut
      ensures forall a <- loader.memory :: loader.memory[a] == stored[HEADER_SIZE + a - loader.dst]
    {
      WholeImageStored(stored, loader.dst);
    }
  }
}
