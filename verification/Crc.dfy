// The CRC both ends of the XMODEM link compute.  The specification is the bit-serial register
// for the polynomial x^16 + x^12 + x^5 + 1, most significant bit first; index 0 of a register
// is its most significant bit.
module Crc {

  import opened Bytes

  predicate IsReg(c: seq<bool>) { |c| == 16 }

  function Zeros(n: nat): (z: seq<bool>)
    ensures |z| == n
  {
    seq(n, _ => false)
  }

  // Addition of bit strings.
  function Xor(a: seq<bool>, b: seq<bool>): (r: seq<bool>)
    requires |a| == |b|
    ensures |r| == |a|
  {
    seq(|a|, i requires 0 <= i < |a| => a[i] != b[i])
  }

  // Multiply by x and reduce.
  function Shift(c: seq<bool>): (r: seq<bool>)
    requires IsReg(c)
    ensures IsReg(r)
  {
    seq(16, i requires 0 <= i < 16 =>
      (if i < 15 then c[i + 1] else false) != (c[0] && (i == 3 || i == 10 || i == 15)))
  }

  function Shifts(c: seq<bool>, k: nat): (r: seq<bool>)
    requires IsReg(c)
    ensures IsReg(r)
    decreases k
  {
    if k == 0 then c else Shifts(Shift(c), k - 1)
  }

  // One message bit enters at the top.
  function Step(c: seq<bool>, bit: bool): (r: seq<bool>)
    requires IsReg(c)
    ensures IsReg(r)
  {
    Shift(c[0 := c[0] != bit])
  }

  function Serial(c: seq<bool>, bits: seq<bool>): (r: seq<bool>)
    requires IsReg(c)
    ensures IsReg(r)
    decreases |bits|
  {
    if bits == [] then c else Serial(Step(c, bits[0]), bits[1..])
  }

  function CrcBits(bits: seq<bool>): (r: seq<bool>)
    ensures IsReg(r)
  {
    Serial(Zeros(16), bits)
  }

  // ---- algebra of the register

  lemma ShiftLinear(a: seq<bool>, b: seq<bool>)
    requires IsReg(a) && IsReg(b)
    ensures Shift(Xor(a, b)) == Xor(Shift(a), Shift(b))
  {
  }

  lemma ShiftInjective(a: seq<bool>, b: seq<bool>)
    requires IsReg(a) && IsReg(b) && Shift(a) == Shift(b)
    ensures a == b
  {
    assert Shift(a)[15] == a[0] && Shift(b)[15] == b[0];
    forall i | 1 <= i < 16 ensures a[i] == b[i] {
      assert Shift(a)[i - 1] == (a[i] != (a[0] && (i - 1 == 3 || i - 1 == 10)));
      assert Shift(b)[i - 1] == (b[i] != (b[0] && (i - 1 == 3 || i - 1 == 10)));
    }
  }

  lemma StepLinear(a: seq<bool>, b: seq<bool>, x: bool, y: bool)
    requires IsReg(a) && IsReg(b)
    ensures Step(Xor(a, b), x != y) == Xor(Step(a, x), Step(b, y))
  {
    var a', b' := a[0 := a[0] != x], b[0 := b[0] != y];
    assert Xor(a, b)[0 := Xor(a, b)[0] != (x != y)] == Xor(a', b');
    ShiftLinear(a', b');
  }

  lemma {:induction false} SerialLinear(a: seq<bool>, b: seq<bool>, x: seq<bool>, y: seq<bool>)
    requires IsReg(a) && IsReg(b) && |x| == |y|
    ensures Serial(Xor(a, b), Xor(x, y)) == Xor(Serial(a, x), Serial(b, y))
    decreases |x|
  {
    if x != [] {
      StepLinear(a, b, x[0], y[0]);
      assert Xor(x, y)[1..] == Xor(x[1..], y[1..]);
      SerialLinear(Step(a, x[0]), Step(b, y[0]), x[1..], y[1..]);
    }
  }

  // The CRC of a sum is the sum of the CRCs.
  lemma CrcLinear(x: seq<bool>, y: seq<bool>)
    requires |x| == |y|
    ensures CrcBits(Xor(x, y)) == Xor(CrcBits(x), CrcBits(y))
  {
    assert Xor(Zeros(16), Zeros(16)) == Zeros(16);
    SerialLinear(Zeros(16), Zeros(16), x, y);
  }

  // No register state is ever forgotten: with the same message after it, different registers
  // stay different.
  lemma {:induction false} SerialInjective(a: seq<bool>, b: seq<bool>, x: seq<bool>)
    requires IsReg(a) && IsReg(b) && Serial(a, x) == Serial(b, x)
    ensures a == b
    decreases |x|
  {
    if x != [] {
      SerialInjective(Step(a, x[0]), Step(b, x[0]), x[1..]);
      var a', b' := a[0 := a[0] != x[0]], b[0 := b[0] != x[0]];
      ShiftInjective(a', b');
      assert forall i :: 1 <= i < 16 ==> a[i] == a'[i] && b[i] == b'[i];
      assert a'[0] == b'[0];
    }
  }

  lemma {:induction false} SerialAppend(c: seq<bool>, x: seq<bool>, y: seq<bool>)
    requires IsReg(c)
    ensures Serial(c, x + y) == Serial(Serial(c, x), y)
    decreases |x|
  {
    if x == [] {
      assert x + y == y;
    } else {
      assert (x + y)[1..] == x[1..] + y;
      SerialAppend(Step(c, x[0]), x[1..], y);
    }
  }

  lemma {:induction false} SerialZeros(n: nat)
    ensures Serial(Zeros(16), Zeros(n)) == Zeros(16)
    decreases n
  {
    if n > 0 {
      assert Step(Zeros(16), false) == Zeros(16);
      assert Zeros(n)[1..] == Zeros(n - 1);
      SerialZeros(n - 1);
    }
  }

  // ---- up to sixteen bits at once

  // The bits at the top of a register.
  function Pack(w: seq<bool>): (r: seq<bool>)
    requires |w| <= 16
    ensures IsReg(r)
  {
    w + Zeros(16 - |w|)
  }

  // Adding up to sixteen message bits to the top of the register first and shifting afterwards
  // is the same as feeding them one by one.
  lemma {:induction false} FeedAtOnce(c: seq<bool>, w: seq<bool>)
    requires IsReg(c) && |w| <= 16
    ensures Serial(c, w) == Shifts(Xor(c, Pack(w)), |w|)
    decreases |w|
  {
    if w == [] {
      assert Xor(c, Pack(w)) == c;
    } else {
      FeedAtOnce(Step(c, w[0]), w[1..]);
      assert Shift(Xor(c, Pack(w))) == Xor(Step(c, w[0]), Pack(w[1..]));
    }
  }

  lemma {:induction false} ShiftsZero(c: seq<bool>, k: nat)
    requires IsReg(c) && Shifts(c, k) == Zeros(16)
    ensures c == Zeros(16)
    decreases k
  {
    if k > 0 {
      ShiftsZero(Shift(c), k - 1);
      assert Shift(Zeros(16)) == Zeros(16);
      ShiftInjective(c, Zeros(16));
    }
  }

  lemma ShortZero(w: seq<bool>)
    requires |w| <= 16 && Serial(Zeros(16), w) == Zeros(16)
    ensures forall i :: 0 <= i < |w| ==> !w[i]
  {
    FeedAtOnce(Zeros(16), w);
    ShiftsZero(Xor(Zeros(16), Pack(w)), |w|);
    assert forall i :: 0 <= i < |w| ==> Xor(Zeros(16), Pack(w))[i] == w[i];
  }

  // x and y differ, and only within the 16 bits from p on.
  predicate Burst(x: seq<bool>, y: seq<bool>, p: nat)
    requires |x| == |y|
  {
    x != y && forall i :: 0 <= i < |x| && !(p <= i < p + 16) ==> x[i] == y[i]
  }

  // Any error confined to sixteen consecutive bits changes the CRC, however long the block.
  lemma BurstDetected(x: seq<bool>, y: seq<bool>, p: nat)
    requires |x| == |y| && Burst(x, y, p)
    ensures CrcBits(x) != CrcBits(y)
  {
    var e, n := Xor(x, y), |x|;
    var d :| 0 <= d < n && x[d] != y[d];
    var q := if p + 16 <= n then p + 16 else n;
    var w := e[p..q];
    assert w[d - p];
    assert e == Zeros(p) + (w + Zeros(n - q));
    SerialZeros(p);
    SerialAppend(Zeros(16), Zeros(p), w + Zeros(n - q));
    SerialAppend(Zeros(16), w, Zeros(n - q));
    if CrcBits(x) == CrcBits(y) {
      CrcLinear(x, y);
      assert CrcBits(e) == Zeros(16);
      SerialZeros(n - q);
      SerialInjective(Serial(Zeros(16), w), Zeros(16), Zeros(n - q));
      ShortZero(w);
    }
  }

  // ---- bytes

  // The bits of a byte, most significant first.
  function BitsOf(b: Byte): (w: seq<bool>)
    ensures |w| == 8
  {
    Digits(b, 8)
  }

  function Bits(data: seq<Byte>): (w: seq<bool>)
    ensures |w| == 8 * |data|
  {
    if data == [] then [] else Bits(data[..|data| - 1]) + BitsOf(data[|data| - 1])
  }

  function Checksum(data: seq<Byte>): (r: seq<bool>)
    ensures IsReg(r)
  {
    CrcBits(Bits(data))
  }

  // Byte by byte: add the byte to the top half of the register, then shift eight times.
  lemma ChecksumByte(data: seq<Byte>, b: Byte)
    ensures Checksum(data + [b]) == Shifts(Xor(Checksum(data), Pack(BitsOf(b))), 8)
  {
    var all := data + [b];
    assert all[..|all| - 1] == data;
    SerialAppend(Zeros(16), Bits(data), BitsOf(b));
    FeedAtOnce(Checksum(data), BitsOf(b));
  }

  lemma {:induction false} ShiftsStep(c: seq<bool>, k: nat)
    requires IsReg(c)
    ensures Shifts(c, k + 1) == Shift(Shifts(c, k))
    decreases k
  {
    if k > 0 {
      ShiftsStep(Shift(c), k - 1);
    }
  }

  // ---- the number the programs hold the register in

  lemma {:induction false} ValueOfXor(x: seq<bool>, y: seq<bool>)
    requires |x| == |y|
    ensures Value(Xor(x, y)) == BitXor(Value(x), Value(y))
    decreases |x|
  {
    if x != [] {
      var n := |x| - 1;
      ValueOfXor(x[..n], y[..n]);
      assert Xor(x, y)[..n] == Xor(x[..n], y[..n]);
      BitXorPush(Value(x[..n]), Value(y[..n]), x[n], y[n]);
    }
  }

  lemma {:induction false} ValueOfZeros(n: nat)
    ensures Value(Zeros(n)) == 0
    decreases n
  {
    if n > 0 {
      assert Zeros(n)[..n - 1] == Zeros(n - 1);
      ValueOfZeros(n - 1);
    }
  }

  lemma {:induction false} ValueOfShifted(w: seq<bool>, k: nat)
    ensures Value(w + Zeros(k)) == Value(w) * Pow2(k)
    decreases k
  {
    if k == 0 {
      assert w + Zeros(0) == w;
    } else {
      assert (w + Zeros(k))[..|w| + k - 1] == w + Zeros(k - 1);
      ValueOfShifted(w, k - 1);
    }
  }

  // One round of the inner loop.
  function StepWord(x: nat): nat {
    (if x / 0x8000 % 2 == 1 then BitXor(2 * x, 0x1021) else 2 * x) % 0x1_0000
  }

  function StepsWord(x: nat, k: nat): nat {
    if k == 0 then x else StepWord(StepsWord(x, k - 1))
  }

  // The number the nested loops leave.
  function CrcWord(data: seq<Byte>): nat {
    if data == [] then 0
    else StepsWord(BitXor(CrcWord(data[..|data| - 1]), (data[|data| - 1] as int) * 256), 8)
  }

  function Polynomial(): (p: seq<bool>)
    ensures |p| == 17
  {
    [false, false, false, false, true, false, false, false, false,
     false, false, true, false, false, false, false, true]
  }

  // 0x1021 = ((1 * 64 * 2 + 1) * 16) * 2 + 1, behind four zeros.
  lemma PolynomialValue()
    ensures Value(Polynomial()) == 0x1021
  {
    PowersOfTwo();
    var a: seq<bool> := [true] + Zeros(6) + [true];
    assert Value(a) == 129 by {
      assert Value([true]) == 1;
      ValueOfShifted([true], 6);
      ValueOfPush([true] + Zeros(6), true);
    }
    var b := a + Zeros(4) + [true];
    assert Value(b) == 0x1021 by {
      ValueOfShifted(a, 4);
      ValueOfPush(a + Zeros(4), true);
    }
    ValueOfPadded(4, b);
    assert Polynomial() == Zeros(4) + b;
  }

  lemma {:induction false} ValueOfPadded(k: nat, w: seq<bool>)
    ensures Value(Zeros(k) + w) == Value(w)
    decreases k
  {
    if k == 0 {
      assert Zeros(0) + w == w;
    } else {
      assert Zeros(k) + w == [false] + (Zeros(k - 1) + w);
      ValueOfTop(false, Zeros(k - 1) + w);
      ValueOfPadded(k - 1, w);
    }
  }

  // The bit that decides the branch is the top bit of the register ...
  lemma TopBit(c: seq<bool>)
    requires IsReg(c)
    ensures Value(c) < 0x1_0000 && (Value(c) / 0x8000 % 2 == 1 <==> c[0])
  {
    PowersOfTwo();
    assert c == [c[0]] + c[1..];
    ValueOfTop(c[0], c[1..]);
  }

  // ... and the branch multiplies by x and reduces.
  lemma Doubled(c: seq<bool>)
    requires IsReg(c)
    ensures Value(Shift(c)) < 0x1_0000
    ensures c[0] ==> BitXor(2 * Value(c), 0x1021) == 0x1_0000 + Value(Shift(c))
    ensures !c[0] ==> 2 * Value(c) == Value(Shift(c))
  {
    PowersOfTwo();
    ValueOfPush(c, false);
    ValueBound(Shift(c));
    if c[0] {
      PolynomialValue();
      ValueOfXor(c + [false], Polynomial());
      assert Xor(c + [false], Polynomial()) == [true] + Shift(c);
      ValueOfTop(true, Shift(c));
    } else {
      assert c + [false] == [false] + Shift(c);
      ValueOfTop(false, Shift(c));
    }
  }

  lemma StepIsShift(c: seq<bool>)
    requires IsReg(c)
    ensures StepWord(Value(c)) == Value(Shift(c))
  {
    TopBit(c);
    Doubled(c);
  }

  lemma {:induction false} StepsAreShifts(c: seq<bool>, k: nat)
    requires IsReg(c)
    ensures StepsWord(Value(c), k) == Value(Shifts(c, k))
    decreases k
  {
    if k > 0 {
      StepsAreShifts(c, k - 1);
      StepIsShift(Shifts(c, k - 1));
      ShiftsStep(c, k - 1);
    }
  }

  lemma FeedIsXor(c: seq<bool>, b: Byte)
    requires IsReg(c)
    ensures BitXor(Value(c), b * 256) == Value(Xor(c, Pack(BitsOf(b))))
  {
    ValueOfDigits(b, 8);
    ValueOfShifted(BitsOf(b), 8);
    assert Pack(BitsOf(b)) == BitsOf(b) + Zeros(8);
    ValueOfXor(c, Pack(BitsOf(b)));
  }

  // What the loops compute is the bit-serial register.
  lemma {:induction false} CrcWordIsChecksum(data: seq<Byte>)
    ensures CrcWord(data) == Value(Checksum(data)) < 0x1_0000
  {
    if data == [] {
      ValueOfZeros(16);
    } else {
      var init, b := data[..|data| - 1], data[|data| - 1];
      CrcWordIsChecksum(init);
      FeedIsXor(Checksum(init), b);
      StepsAreShifts(Xor(Checksum(init), Pack(BitsOf(b))), 8);
      ChecksumByte(init, b);
      assert data == init + [b];
    }
    ValueBound(Checksum(data));
  }

  // A block damaged within sixteen consecutive bits never keeps its CRC.
  lemma DamageDetected(x: seq<Byte>, y: seq<Byte>, p: nat)
    requires |x| == |y| && Burst(Bits(x), Bits(y), p)
    ensures CrcWord(x) != CrcWord(y)
  {
    BurstDetected(Bits(x), Bits(y), p);
    CrcWordIsChecksum(x);
    CrcWordIsChecksum(y);
    if CrcWord(x) == CrcWord(y) {
      ValueInjective(Checksum(x), Checksum(y));
    }
  }

  // xmodem.c and bench.cpp: the inner loop masks the register once, after the branch.
  method Crc16C(data: seq<Byte>) returns (crc: nat)
    ensures crc == CrcWord(data) < 0x1_0000
  {
    crc := 0;
    for i := 0 to |data|
      invariant crc == CrcWord(data[..i])
    {
      assert data[..i + 1][..i] == data[..i];
      crc := RoundsC(BitXor(crc, (data[i] as int) * 256));
    }
    assert data[..|data|] == data;
    CrcWordIsChecksum(data);
  }

  method RoundsC(fed: nat) returns (crc: nat)
    ensures crc == StepsWord(fed, 8)
  {
    hide BitXor;
    crc := fed;
    for bit := 0 to 8
      invariant crc == StepsWord(fed, bit)
    {
      if crc / 0x8000 % 2 == 1 {
        crc := BitXor(crc * 2, 0x1021);
      } else {
        crc := crc * 2;
      }
      crc := crc % 0x1_0000;
    }
  }

  // xmodem_send.py: each branch of the inner loop masks its own result.
  method Crc16Python(data: seq<Byte>) returns (crc: nat)
    ensures crc == CrcWord(data)
  {
    crc := 0;
    for i := 0 to |data|
      invariant crc == CrcWord(data[..i])
    {
      assert data[..i + 1][..i] == data[..i];
      crc := RoundsPython(BitXor(crc, (data[i] as int) * 256));
    }
    assert data[..|data|] == data;
    CrcWordIsChecksum(data);
  }

  method RoundsPython(fed: nat) returns (crc: nat)
    ensures crc == StepsWord(fed, 8)
  {
    crc := fed;
    for bit := 0 to 8
      invariant crc == StepsWord(fed, bit)
    {
      if crc / 0x8000 % 2 == 1 {
        crc := BitXor(crc * 2, 0x1021) % 0x1_0000;
      } else {
        crc := crc * 2 % 0x1_0000;
      }
    }
  }
}
