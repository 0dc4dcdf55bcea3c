// The programs at the sending end of an XMODEM transfer, the simulator's sender and the Python
// one, each proved to move as XmodemProtocol says and to put its frames on the line.
module XmodemCode {

  import opened Bytes
  import opened Crc
  import opened XmodemStore
  import opened XmodemFrame
  import opened XmodemProtocol

  // The bytes of a message; senders make blocks of 128 bytes only.
  function Wire(m: Message): seq<Byte> {
    match m
    case Block(number, data) => if |data| == BLOCK_SIZE then Frame(number, data) else []
    case End => [EOT]
  }

  function WireAll(ms: seq<Message>): seq<Byte> {
    if ms == [] then [] else Wire(ms[0]) + WireAll(ms[1..])
  }

  // The sender's offset runs out with the last block.
  lemma LastBlock(image: seq<Byte>, acked: nat, offset: nat)
    requires acked < Total(image) && offset == acked * BLOCK_SIZE
    ensures var step := if |image| - offset < BLOCK_SIZE then |image| - offset else BLOCK_SIZE;
            && step >= 0
            && offset + step == (if (acked + 1) * BLOCK_SIZE < |image| then (acked + 1) * BLOCK_SIZE else |image|)
            && (offset + step >= |image| <==> acked + 1 >= Total(image))
  {
  }

  lemma NotEmpty(image: seq<Byte>)
    ensures image != [] ==> Total(image) > 0
  {
  }

  method MakeFrame(number: Byte, data: seq<Byte>) returns (frame: seq<Byte>)
    requires |data| == BLOCK_SIZE
    ensures frame == Frame(number, data)
  {
    hide CrcWord;
    var crc := Crc16C(data);
    frame := [SOH, number, 0xFF - number] + data + [crc / 256, crc % 256];
  }

  // bench.cpp: XmodemSender
  class BenchSender {
    const image: seq<Byte>
    var state: State
    var offset: nat
    var blockNo: Byte
    var retries: nat
    var sent: seq<Byte>
    ghost var acked: nat

    ghost function View(): Sender
      reads this
    {
      Sender(Bench, image, MAX_RETRIES, acked, retries, state)
    }

    ghost predicate Valid()
      reads this
    {
      && offset == (if acked * BLOCK_SIZE < |image| then acked * BLOCK_SIZE else |image|)
      && (state == WaitRequest || state == WaitAck ==> blockNo == (acked + 1) % 256)
      && (state == WaitRequest ==> acked == 0)
      && (state == WaitAck ==> acked < Total(image))
    }

    constructor (image: seq<Byte>)
      ensures Valid() && View() == Sender(Bench, image, MAX_RETRIES, 0, 0, WaitRequest) && sent == []
    {
      this.image := image;
      state, offset, blockNo, retries, sent, acked := WaitRequest, 0, 1, 0, [], 0;
    }

    // The data of the current block, padded.
    method FillBlock() returns (data: seq<Byte>)
      requires Valid() && acked < Total(image)
      ensures data == BlockOf(image, acked)
    {
      var remaining := |image| - offset;
      var count := if remaining < BLOCK_SIZE then remaining else BLOCK_SIZE;
      var buffer := new Byte[BLOCK_SIZE](_ => PADDING);
      for i := 0 to count
        invariant forall j :: 0 <= j < i ==> buffer[j] == image[offset + j]
        invariant forall j :: i <= j < BLOCK_SIZE ==> buffer[j] == PADDING
      {
        buffer[i] := image[offset + i];
      }
      data := buffer[..];
      assert forall j :: 0 <= j < BLOCK_SIZE ==> data[j] == Sent(image, offset + j);
    }

    method EnqueueFrame()
      requires Valid() && acked < Total(image) && (state == WaitRequest || state == WaitAck)
      modifies this`sent, this`state
      ensures sent == old(sent) + Wire(Current(View())) && state == WaitAck
    {
      hide BlockOf;
      hide Frame;
      var data := FillBlock();
      var frame := MakeFrame(blockNo, data);
      sent := sent + frame;
      state := WaitAck;
    }

    method AdvanceOffset() returns (last: bool)
      requires Valid() && state == WaitAck
      modifies this`offset, this`retries, this`acked
      ensures acked == old(acked) + 1 && retries == 0 && (last <==> acked >= Total(image))
      ensures offset == if acked * BLOCK_SIZE < |image| then acked * BLOCK_SIZE else |image|
    {
      LastBlock(image, acked, offset);
      var remaining := |image| - offset;
      offset := offset + if remaining < BLOCK_SIZE then remaining else BLOCK_SIZE;
      retries := 0;
      acked := acked + 1;
      last := offset >= |image|;
    }

    method CountUp()
      requires acked > 0 && blockNo == acked % 256
      modifies this`blockNo
      ensures blockNo == (acked + 1) % 256
    {
      blockNo := (blockNo + 1) % 256;
    }

    // An acknowledged block.
    method NextBlock()
      requires Valid() && state == WaitAck
      modifies this
      ensures Valid() && View() == OnReply(old(View()), ACK).sender
      ensures sent == old(sent) + WireAll(OnReply(old(View()), ACK).message)
    {
      hide BlockOf;
      hide Frame;
      hide Total;
      var last := AdvanceOffset();
      if last {
        sent := sent + [EOT];
        state := WaitEndAck;
      } else {
        CountUp();
        EnqueueFrame();
      }
    }

    method OnTxByte(byte: Byte)
      requires Valid()
      modifies this
      ensures Valid() && View() == OnReply(old(View()), byte).sender
      ensures sent == old(sent) + WireAll(OnReply(old(View()), byte).message)
    {
      hide BlockOf;
      hide Frame;
      hide Total;
      if state == Done || state == Failed {
      } else if state == WaitRequest && byte == CRC_REQUEST {
        if image == [] {
          state := Failed;
        } else {
          NotEmpty(image);
          EnqueueFrame();
        }
      } else if state == WaitAck {
        if byte == ACK {
          NextBlock();
        } else if byte == NAK {
          retries := retries + 1;
          if retries >= MAX_RETRIES {
            state := Failed;
          } else {
            EnqueueFrame();
          }
        } else if byte == CAN {
          state := Failed;
        }
      } else if state == WaitEndAck {
        if byte == ACK {
          state := Done;
        } else if byte == CAN {
          state := Failed;
        }
      }
    }
  }

  // ---- the Python sender

  // What read_byte brings: a byte, or nothing before the deadline.
  datatype Response = Answer(byte: Byte) | TimedOut

  // What the sender does about a response.
  function OnResponse(s: Sender, r: Response): Move {
    if r.TimedOut? then OnTimeout(s) else OnReply(s, r.byte)
  }

  // The state after the first n responses.
  function AfterResponses(s: Sender, responses: nat -> Response, from: nat, n: nat): Sender {
    if n == 0 then s else OnResponse(AfterResponses(s, responses, from, n - 1), responses(from + (n - 1))).sender
  }

  // What the protocol puts on the line on the first n responses.
  function Emitted(s: Sender, responses: nat -> Response, from: nat, n: nat): seq<Byte> {
    if n == 0 then []
    else
      Emitted(s, responses, from, n - 1) +
      WireAll(OnResponse(AfterResponses(s, responses, from, n - 1), responses(from + (n - 1))).message)
  }

  function Repeat(bytes: seq<Byte>, n: nat): seq<Byte> {
    if n == 0 then [] else Repeat(bytes, n - 1) + bytes
  }

  lemma WireOne(m: Message)
    ensures WireAll([]) == [] && WireAll([m]) == Wire(m)
  {
    assert [m][1..] == [];
  }

  // The message after an acknowledgement.
  function Following(s: Sender): Message {
    if s.acked >= Total(s.image) then End else Current(s)
  }

  // One attempt for a block, the w-th failure before it.
  lemma Attempt(s: Sender, w: nat, r: Response)
    requires s.kind == Python && s.state == WaitAck && s.retries == w < s.limit && s.acked < Total(s.image)
    ensures var n := OnResponse(s, r).sender;
            if r == Answer(ACK) then
              n == s.(acked := s.acked + 1, retries := 0,
                      state := if s.acked + 1 >= Total(s.image) then WaitEndAck else WaitAck)
            else if r == TimedOut || r == Answer(NAK) then
              n == s.(retries := w + 1, state := if w + 1 >= s.limit then Failed else WaitAck)
            else n == s.(state := Failed)
    ensures var n := OnResponse(s, r);
            WireAll(n.message) ==
            if r == Answer(ACK) then Wire(Following(n.sender))
            else if (r == TimedOut || r == Answer(NAK)) && w + 1 < s.limit then Wire(Current(s)) else []
  {
    hide Total;
    hide BlockOf;
    hide Wire;
    var n := OnResponse(s, r);
    WireOne(Current(s));
    WireOne(Following(n.sender));
  }

  // xmodem_send.py: send_block, for the block after `acked` acknowledged ones.  It ends after at
  // most `retries` writes of the same frame, with success exactly if the block is acknowledged,
  // and has then written what the protocol puts on the line up to the next message.
  method SendBlock(s: Sender, number: Byte, data: seq<Byte>, responses: nat -> Response, from: nat)
      returns (acknowledged: bool, next: nat, line: seq<Byte>, ghost after: Sender)
    requires s.kind == Python && s.state == WaitAck && s.retries == 0 && s.limit >= 1 && s.acked < Total(s.image)
    requires Current(s) == Block(number, data)
    ensures from < next <= from + s.limit && line == Repeat(Frame(number, data), next - from)
    ensures after == AfterResponses(s, responses, from, next - from)
    ensures Wire(Current(s)) + Emitted(s, responses, from, next - from) ==
            line + (if acknowledged then Wire(Following(after)) else [])
    ensures acknowledged ==>
              after == s.(acked := s.acked + 1, state := if s.acked + 1 >= Total(s.image) then WaitEndAck else WaitAck)
    ensures !acknowledged ==> after.state == Failed && after.acked == s.acked
    ensures acknowledged <==> responses(next - 1) == Answer(ACK)
    ensures forall i :: from <= i < next - 1 ==> responses(i) == TimedOut || responses(i) == Answer(NAK)
  {
    hide Total;
    hide OnResponse;
    hide AfterResponses;
    hide Emitted;
    hide Frame;
    hide BlockOf;
    hide Repeat;
    hide Following;
    hide WireAll;
    var frame := MakeFrame(number, data);
    var attempts := 0;
    next, line, after := from, [], s;
    NoResponses(s, responses, from);
    RepeatNext(frame, 0);
    while attempts < s.limit
      invariant next == from + attempts && attempts <= s.limit && line == Repeat(frame, attempts)
      invariant after == AfterResponses(s, responses, from, attempts)
      invariant attempts < s.limit ==> after == s.(retries := attempts)
      invariant attempts == s.limit ==> after == s.(retries := attempts, state := Failed)
      invariant forall i :: from <= i < next ==> responses(i) == TimedOut || responses(i) == Answer(NAK)
      invariant frame + Emitted(s, responses, from, attempts) == line + (if attempts < s.limit then frame else [])
    {
      line := line + frame;
      var response := responses(next);
      Attempt(after, attempts, response);
      OneResponse(s, responses, from, attempts);
      RepeatNext(frame, attempts);
      ghost var sofar, reply := Emitted(s, responses, from, attempts), WireAll(OnResponse(after, response).message);
      assert frame + (sofar + reply) == (frame + sofar) + reply;
      after := OnResponse(after, response).sender;
      next, attempts := next + 1, attempts + 1;
      if response == Answer(ACK) {
        return true, next, line, after;
      }
      if response != TimedOut && response != Answer(NAK) {
        return false, next, line, after;
      }
    }
    acknowledged := false;
  }

  lemma RepeatNext(bytes: seq<Byte>, n: nat)
    ensures Repeat(bytes, 0) == [] && Repeat(bytes, n + 1) == Repeat(bytes, n) + bytes
  {
  }

  lemma OneResponse(s: Sender, responses: nat -> Response, from: nat, n: nat)
    ensures var p := OnResponse(AfterResponses(s, responses, from, n), responses(from + n));
            && AfterResponses(s, responses, from, n + 1) == p.sender
            && Emitted(s, responses, from, n + 1) == Emitted(s, responses, from, n) + WireAll(p.message)
  {
    hide OnResponse;
    hide WireAll;
  }

  lemma {:induction false} ResponsesAppend(s: Sender, responses: nat -> Response, from: nat, n: nat, m: nat)
    ensures var p := AfterResponses(s, responses, from, n);
            && AfterResponses(s, responses, from, n + m) == AfterResponses(p, responses, from + n, m)
            && Emitted(s, responses, from, n + m) ==
               Emitted(s, responses, from, n) + Emitted(p, responses, from + n, m)
    decreases m
  {
    hide OnResponse;
    hide WireAll;
    hide AfterResponses;
    hide Emitted;
    var p := AfterResponses(s, responses, from, n);
    if m == 0 {
      NoResponses(p, responses, from + n);
    } else {
      ResponsesAppend(s, responses, from, n, m - 1);
      OneResponse(s, responses, from, n + (m - 1));
      OneResponse(p, responses, from + n, m - 1);
    }
  }

  lemma NoResponses(s: Sender, responses: nat -> Response, from: nat)
    ensures AfterResponses(s, responses, from, 0) == s && Emitted(s, responses, from, 0) == []
  {
  }

  // An attempt to end, the w-th failure before it.
  lemma EndAttempt(s: Sender, w: nat, r: Response)
    requires s.kind == Python && s.state == WaitEndAck && s.retries == w < s.limit
    ensures OnResponse(s, r).sender ==
            if r == Answer(ACK) then s.(state := Done)
            else if r == TimedOut || r == Answer(NAK) then
              s.(retries := w + 1, state := if w + 1 >= s.limit then Failed else WaitEndAck)
            else s.(state := Failed)
    ensures WireAll(OnResponse(s, r).message) ==
            if (r == TimedOut || r == Answer(NAK)) && w + 1 < s.limit then [EOT] else []
  {
    WireOne(End);
  }

  // xmodem_send.py: the loop of send_image over the end marks.
  method SendEnd(s: Sender, responses: nat -> Response, from: nat)
      returns (acknowledged: bool, next: nat, line: seq<Byte>, ghost after: Sender)
    requires s.kind == Python && s.state == WaitEndAck && s.retries == 0 && s.limit >= 1
    ensures from < next <= from + s.limit && after == AfterResponses(s, responses, from, next - from)
    ensures line == Repeat([EOT], next - from) == [EOT] + Emitted(s, responses, from, next - from)
    ensures if acknowledged then after.state == Done else after.state == Failed
  {
    hide OnResponse;
    hide AfterResponses;
    hide Emitted;
    hide Repeat;
    var attempts := 0;
    next, line, after := from, [], s;
    NoResponses(s, responses, from);
    RepeatNext([EOT], 0);
    while attempts < s.limit
      invariant attempts <= s.limit && next == from + attempts && line == Repeat([EOT], attempts)
      invariant after == AfterResponses(s, responses, from, attempts)
      invariant attempts < s.limit ==> after == s.(retries := attempts)
      invariant attempts == s.limit ==> after == s.(retries := attempts, state := Failed)
      invariant [EOT] + Emitted(s, responses, from, attempts) == line + (if attempts < s.limit then [EOT] else [])
    {
      line := line + [EOT];
      var response := responses(next);
      EndAttempt(after, attempts, response);
      OneResponse(s, responses, from, attempts);
      RepeatNext([EOT], attempts);
      ghost var sofar, reply := Emitted(s, responses, from, attempts), WireAll(OnResponse(after, response).message);
      assert [EOT] + (sofar + reply) == ([EOT] + sofar) + reply;
      after := OnResponse(after, response).sender;
      next, attempts := next + 1, attempts + 1;
      if response == Answer(ACK) {
        return true, next, line, after;
      }
      if response != TimedOut && response != Answer(NAK) {
        return false, next, line, after;
      }
    }
    acknowledged := false;
  }

  // The sender after `index` acknowledged blocks, before anything has failed.
  function AckedSoFar(image: seq<Byte>, limit: nat, index: nat): Sender {
    Sender(Python, image, limit, index, 0, if index < Total(image) then WaitAck else WaitEndAck)
  }

  // What the first request comes to: a refusal of images of no block or more than 255.
  lemma FirstRequest(image: seq<Byte>, limit: nat)
    ensures var begun := OnReply(Sender(Python, image, limit, 0, 0, WaitRequest), CRC_REQUEST);
            if Total(image) == 0 || Total(image) > 255 then begun.sender.state == Failed && WireAll(begun.message) == []
            else begun.sender == AckedSoFar(image, limit, 0) && WireAll(begun.message) == Wire(Following(begun.sender))
  {
    NotEmpty(image);
    assert image == [] ==> Total(image) == 0;
    var begun := OnReply(Sender(Python, image, limit, 0, 0, WaitRequest), CRC_REQUEST);
    WireOne(Following(begun.sender));
    hide Total;
    hide BlockOf;
    hide Wire;
  }

  // One turn of the loop over the blocks: what has been written, with the message that comes
  // next, stays what the protocol has put on the line.
  method SendOne(image: seq<Byte>, limit: nat, responses: nat -> Response, index: nat, used: nat,
                 ghost begun: Sender, ghost before: seq<Byte>, ghost opening: seq<Byte>)
      returns (ok: bool, next: nat, line: seq<Byte>, ghost after: Sender)
    requires limit >= 1 && index < Total(image) <= 255
    requires AfterResponses(begun, responses, 0, used) == AckedSoFar(image, limit, index)
    requires before + Wire(Following(AckedSoFar(image, limit, index))) == opening + Emitted(begun, responses, 0, used)
    ensures after == AfterResponses(begun, responses, 0, next)
    ensures if ok then after == AckedSoFar(image, limit, index + 1) else after.state == Failed
    ensures before + line + (if ok then Wire(Following(after)) else []) == opening + Emitted(begun, responses, 0, next)
  {
    hide Total;
    hide BlockOf;
    hide Frame;
    hide AfterResponses;
    hide Emitted;
    hide Wire;
    hide Repeat;
    var data := CutBlock(image, index);
    ghost var s := AckedSoFar(image, limit, index);
    ok, next, line, after := SendBlock(AckedSoFar(image, limit, index), index + 1, data, responses, used);
    ResponsesAppend(begun, responses, 0, used, next - used);
    ghost var first, more := Emitted(begun, responses, 0, used), Emitted(s, responses, used, next - used);
    ghost var w, f := Wire(Current(s)), if ok then Wire(Following(after)) else [];
    assert opening + (first + more) == (opening + first) + more == (before + w) + more == before + (w + more);
    assert before + (line + f) == before + line + f;
  }

  // xmodem_send.py: wait_for_crc_request, for as many reads as the time allows.
  method WaitForRequest(s: Sender, heard: nat -> Response, tries: nat) returns (asked: bool, ghost after: Sender)
    requires s.kind == Python && s.state == WaitRequest
    ensures asked <==> exists i :: 0 <= i < tries && heard(i) == Answer(CRC_REQUEST)
    ensures after == if asked then OnReply(s, CRC_REQUEST).sender else OnTimeout(s).sender
    ensures !asked ==> after.state == Failed && OnTimeout(s).message == []
  {
    hide Current;
    for i := 0 to tries
      invariant forall j :: 0 <= j < i ==> heard(j) != Answer(CRC_REQUEST)
    {
      if heard(i) == Answer(CRC_REQUEST) {
        return true, OnReply(s, CRC_REQUEST).sender;
      }
    }
    return false, OnTimeout(s).sender;
  }

  // xmodem_send.py: send_image, once the receiver has asked for the transfer to start.  It ends
  // as the protocol does, and writes what the protocol puts on the line, whatever the responses.
  method SendImage(image: seq<Byte>, limit: nat, responses: nat -> Response)
      returns (sent: bool, used: nat, line: seq<Byte>, ghost after: Sender)
    requires limit >= 1
    ensures var begun := OnReply(Sender(Python, image, limit, 0, 0, WaitRequest), CRC_REQUEST);
            && after == AfterResponses(begun.sender, responses, 0, used)
            && line == WireAll(begun.message) + Emitted(begun.sender, responses, 0, used)
            && (sent <==> after.state == Done) && (!sent <==> after.state == Failed)
  {
    hide AfterResponses;
    hide Emitted;
    hide OnReply;
    hide Total;
    hide Wire;
    hide WireAll;
    hide Repeat;
    hide Current;
    var count := BlockCount(image);
    FirstRequest(image, limit);
    ghost var start := OnReply(Sender(Python, image, limit, 0, 0, WaitRequest), CRC_REQUEST);
    ghost var begun, opening := start.sender, WireAll(start.message);
    used, line, after := 0, [], begun;
    NoResponses(begun, responses, 0);
    if count == 0 || count > 255 {
      return false, 0, [], after;
    }
    var index := 0;
    while index < count
      invariant index <= count && after == AfterResponses(begun, responses, 0, used) == AckedSoFar(image, limit, index)
      invariant line + Wire(Following(after)) == opening + Emitted(begun, responses, 0, used)
    {
      var ok, more;
      ok, used, more, after := SendOne(image, limit, responses, index, used, begun, line, opening);
      line := line + more;
      if !ok {
        return false, used, line, after;
      }
      index := index + 1;
    }
    var ok, next, more, then' := SendEnd(AckedSoFar(image, limit, count), responses, used);
    ResponsesAppend(begun, responses, 0, used, next - used);
    EndWire(line, Emitted(begun, responses, 0, used), Emitted(after, responses, used, next - used), opening);
    return ok, next, line + more, then';
  }

  // The end mark is what followed, and what the protocol puts on the line after it.
  lemma EndWire(line: seq<Byte>, first: seq<Byte>, more: seq<Byte>, opening: seq<Byte>)
    requires line + Wire(End) == opening + first
    ensures line + ([EOT] + more) == opening + (first + more)
  {
    assert line + ([EOT] + more) == (line + [EOT]) + more;
    assert opening + (first + more) == (opening + first) + more;
  }

  method BlockCount(image: seq<Byte>) returns (count: nat)
    ensures count == Total(image)
  {
    count := (|image| + BLOCK_SIZE - 1) / BLOCK_SIZE;
  }

  // image[start:start + 128].ljust(128, b"\x1a")
  method CutBlock(image: seq<Byte>, index: nat) returns (data: seq<Byte>)
    requires index < Total(image)
    ensures data == BlockOf(image, index)
  {
    var start := index * BLOCK_SIZE;
    var end := if start + BLOCK_SIZE < |image| then start + BLOCK_SIZE else |image|;
    data := image[start..end] + seq<Byte>(BLOCK_SIZE - (end - start), _ => PADDING);
    forall j | 0 <= j < BLOCK_SIZE ensures data[j] == BlockOf(image, index)[j] {
      assert j < end - start ==> data[j] == image[start + j];
    }
  }
}
