// One XMODEM-CRC frame: a start byte, the block number and its complement, 128 bytes of data
// and their CRC, high byte first.
module XmodemFrame {

  import opened Bytes
  import opened Crc
  import opened XmodemStore

  const SOH: Byte := 0x01
  const EOT: Byte := 0x04
  const ACK: Byte := 0x06
  const NAK: Byte := 0x15
  const CAN: Byte := 0x18
  const CRC_REQUEST: Byte := 0x43

  const FRAME_REST := BLOCK_SIZE + 4

  function Frame(number: Byte, data: seq<Byte>): (f: seq<Byte>)
    requires |data| == BLOCK_SIZE
    ensures |f| == FRAME_REST + 1
  {
    CrcWordIsChecksum(data);
    [SOH, number, 0xFF - number] + data + [CrcWord(data) / 256, CrcWord(data) % 256]
  }

  datatype Decoded = Good(number: Byte, data: seq<Byte>) | BadNumber | BadCrc

  // receive_block, once all the bytes after the start byte have come in.
  function Decode(raw: seq<Byte>): (d: Decoded)
    requires |raw| == FRAME_REST
    ensures d.Good? ==> |d.data| == BLOCK_SIZE
  {
    var data := raw[2..2 + BLOCK_SIZE];
    if BitXor(raw[0], raw[1]) != 0xFF then BadNumber
    else if (raw[2 + BLOCK_SIZE] as int) * 256 + raw[3 + BLOCK_SIZE] != CrcWord(data) then BadCrc
    else Good(raw[0], data)
  }

  lemma ComplementTest(a: Byte, b: Byte)
    ensures BitXor(a, b) == 0xFF <==> b == 0xFF - a
  {
    PowersOfTwo();
    XorIsComplement(a, b, 8);
  }

  lemma FrameBytes(number: Byte, data: seq<Byte>)
    requires |data| == BLOCK_SIZE
    ensures CrcWord(data) < 0x1_0000
    ensures var raw := Frame(number, data)[1..];
            && raw[0] == number && raw[1] == 0xFF - number && raw[2..2 + BLOCK_SIZE] == data
            && (forall i :: 0 <= i < BLOCK_SIZE ==> raw[2 + i] == data[i])
            && raw[2 + BLOCK_SIZE] == CrcWord(data) / 256 && raw[3 + BLOCK_SIZE] == CrcWord(data) % 256
  {
    CrcWordIsChecksum(data);
    hide CrcWord;
    var raw := Frame(number, data)[1..];
    forall i | 0 <= i < BLOCK_SIZE ensures raw[2 + i] == data[i] {
    }
    assert raw[2..2 + BLOCK_SIZE] == data;
  }

  // What a sender frames, the receiver takes apart again.
  lemma FrameRoundTrip(number: Byte, data: seq<Byte>)
    requires |data| == BLOCK_SIZE
    ensures Decode(Frame(number, data)[1..]) == Good(number, data)
  {
    FrameBytes(number, data);
    ComplementTest(number, 0xFF - number);
    hide CrcWord;
    hide Frame;
  }

  lemma HighLow(high: Byte, low: Byte, word: nat)
    requires (high as int) * 256 + low == word
    ensures high == word / 256 && low == word % 256
  {
  }

  // And nothing is taken for a block but the frame of that block.
  lemma OnlyFramesDecode(raw: seq<Byte>)
    requires |raw| == FRAME_REST
    ensures var d := Decode(raw); d.Good? ==> raw == Frame(d.number, d.data)[1..]
  {
    var d := Decode(raw);
    if d.Good? {
      FrameBytes(d.number, d.data);
      ComplementTest(raw[0], raw[1]);
      HighLow(raw[2 + BLOCK_SIZE], raw[3 + BLOCK_SIZE], CrcWord(d.data));
      hide CrcWord;
      hide Frame;
      hide BitXor;
      var f := Frame(d.number, d.data)[1..];
      forall i | 0 <= i < FRAME_REST ensures raw[i] == f[i] {
        if 2 <= i < 2 + BLOCK_SIZE {
          assert raw[i] == d.data[i - 2] == f[2 + (i - 2)];
        }
      }
    }
  }

  // Damage to sixteen consecutive bits of the data is always noticed.
  lemma DamagedDataRefused(number: Byte, data: seq<Byte>, raw: seq<Byte>, p: nat)
    requires |data| == BLOCK_SIZE && |raw| == FRAME_REST
    requires var frame := Frame(number, data)[1..];
             raw[..2] == frame[..2] && raw[2 + BLOCK_SIZE..] == frame[2 + BLOCK_SIZE..]
    requires Burst(Bits(data), Bits(raw[2..2 + BLOCK_SIZE]), p)
    ensures Decode(raw) == BadCrc
  {
    var frame, got := Frame(number, data)[1..], raw[2..2 + BLOCK_SIZE];
    FrameBytes(number, data);
    ComplementTest(number, 0xFF - number);
    assert raw[0] == raw[..2][0] == frame[..2][0] == number && raw[1] == raw[..2][1] == frame[..2][1];
    DamageDetected(data, got, p);
    CrcWordIsChecksum(data);
    var tail := raw[2 + BLOCK_SIZE..];
    assert raw[2 + BLOCK_SIZE] == tail[0] == CrcWord(data) / 256;
    assert raw[3 + BLOCK_SIZE] == tail[1] == CrcWord(data) % 256;
  }

  // So is any damage to the check sum alone, or to one of the two number bytes.
  lemma DamagedEndsRefused(number: Byte, data: seq<Byte>, raw: seq<Byte>)
    requires |data| == BLOCK_SIZE && |raw| == FRAME_REST
    requires var frame := Frame(number, data)[1..];
             && raw != frame && raw[2..2 + BLOCK_SIZE] == data
             && (raw[0] == frame[0] || raw[1] == frame[1])
    ensures !Decode(raw).Good?
  {
    if Decode(raw).Good? {
      OnlyFramesDecode(raw);
      ComplementTest(raw[0], raw[1]);
      assert false;
    }
  }
}
