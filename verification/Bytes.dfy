// Bytes, the numbers their bits and their little-endian groups stand for.
module Bytes {

  type Byte = b: int | 0 <= b < 256

  function Pow2(n: nat): (p: nat)
    ensures p > 0
  {
    if n == 0 then 1 else 2 * Pow2(n - 1)
  }

  // Bit strings are written most significant bit first.
  function Value(w: seq<bool>): nat {
    if w == [] then 0 else 2 * Value(w[..|w| - 1]) + (if w[|w| - 1] then 1 else 0)
  }

  // The n low bits of v.
  function Digits(v: nat, n: nat): (w: seq<bool>)
    ensures |w| == n
  {
    if n == 0 then [] else Digits(v / 2, n - 1) + [v % 2 == 1]
  }

  // Exclusive or of unsigned numbers.
  function BitXor(a: nat, b: nat): nat {
    if a == 0 && b == 0 then 0 else 2 * BitXor(a / 2, b / 2) + (a + b) % 2
  }

  lemma {:induction false} ValueBound(w: seq<bool>)
    ensures Value(w) < Pow2(|w|)
  {
    if w != [] {
      ValueBound(w[..|w| - 1]);
    }
  }

  lemma {:induction false} ValueOfTop(b: bool, w: seq<bool>)
    ensures Value([b] + w) == (if b then Pow2(|w|) else 0) + Value(w) && Value(w) < Pow2(|w|)
  {
    if w != [] {
      ValueOfTop(b, w[..|w| - 1]);
      assert ([b] + w)[..|w|] == [b] + w[..|w| - 1];
    } else {
      assert [b] + w == [b] && [b][..0] == [];
    }
  }

  lemma {:induction false} ValueInjective(x: seq<bool>, y: seq<bool>)
    requires |x| == |y| && Value(x) == Value(y)
    ensures x == y
  {
    if x != [] {
      var n := |x| - 1;
      ValueInjective(x[..n], y[..n]);
      assert x == x[..n] + [x[n]] && y == y[..n] + [y[n]];
    }
  }

  lemma {:induction false} ValueOfDigits(v: nat, n: nat)
    requires v < Pow2(n)
    ensures Value(Digits(v, n)) == v
    decreases n
  {
    if n > 0 {
      ValueOfDigits(v / 2, n - 1);
      assert Digits(v, n)[..n - 1] == Digits(v / 2, n - 1);
    }
  }

  lemma ValueOfPush(w: seq<bool>, b: bool)
    ensures Value(w + [b]) == 2 * Value(w) + (if b then 1 else 0)
  {
    assert (w + [b])[..|w|] == w;
  }

  lemma BitXorPush(a: nat, b: nat, p: bool, q: bool)
    ensures BitXor(2 * a + (if p then 1 else 0), 2 * b + (if q then 1 else 0)) ==
            2 * BitXor(a, b) + (if p != q then 1 else 0)
  {
    var x, y := 2 * a + (if p then 1 else 0), 2 * b + (if q then 1 else 0);
    assert x / 2 == a && y / 2 == b;
    assert (x + y) % 2 == if p != q then 1 else 0;
    if x == 0 && y == 0 {
      assert BitXor(0, 0) == 0;
    }
  }

  lemma PowersOfTwo()
    ensures Pow2(4) == 16 && Pow2(6) == 64 && Pow2(8) == 0x100 && Pow2(15) == 0x8000 && Pow2(16) == 0x1_0000
  {
    assert Pow2(4) == 16;
    assert Pow2(8) == 16 * Pow2(4);
    assert Pow2(12) == 16 * Pow2(8);
    assert Pow2(16) == 16 * Pow2(12);
  }

  lemma Halved(a: nat, b: nat)
    ensures BitXor(a, b) == 2 * BitXor(a / 2, b / 2) + (a + b) % 2
  {
    if a == 0 && b == 0 {
      assert BitXor(0, 0) == 0;
    }
  }

  lemma LastBit(a: nat, b: nat, x: nat, p: nat)
    requires x == p - 1 <==> a / 2 + b / 2 == p - 1
    ensures 2 * x + (a + b) % 2 == 2 * p - 1 <==> a + b == 2 * p - 1
  {
    var c, d := a / 2, b / 2;
    assert a == 2 * c + a % 2 && b == 2 * d + b % 2;
  }

  // Two bytes are each other's complement exactly when they add up to 0xFF.
  lemma {:induction false} XorIsComplement(a: nat, b: nat, n: nat)
    requires a < Pow2(n) && b < Pow2(n)
    ensures BitXor(a, b) == Pow2(n) - 1 <==> a + b == Pow2(n) - 1
    decreases n
  {
    if n == 0 {
      assert BitXor(0, 0) == 0;
    } else {
      XorIsComplement(a / 2, b / 2, n - 1);
      Halved(a, b);
      hide BitXor;
      LastBit(a, b, BitXor(a / 2, b / 2), Pow2(n - 1));
    }
  }

  // Four bytes as a little-endian word.
  function Le32(s: seq<Byte>, i: nat): (v: nat)
    requires i + 4 <= |s|
    ensures v < 0x1_0000_0000
  {
    (s[i] as int) + 0x100 * (s[i + 1] as int) + 0x1_0000 * (s[i + 2] as int) + 0x100_0000 * (s[i + 3] as int)
  }

  function Le16(s: seq<Byte>, i: nat): (v: nat)
    requires i + 2 <= |s|
    ensures v < 0x1_0000
  {
    (s[i] as int) + 0x100 * (s[i + 1] as int)
  }

  function ToLe32(v: nat): (s: seq<Byte>)
    requires v < 0x1_0000_0000
    ensures |s| == 4 && Le32(s, 0) == v
  {
    var a := v / 0x100;
    var b := a / 0x100;
    [v % 0x100, a % 0x100, b % 0x100, b / 0x100]
  }

  function ToLe16(v: nat): (s: seq<Byte>)
    requires v < 0x1_0000
    ensures |s| == 2 && Le16(s, 0) == v
  {
    [v % 0x100, v / 0x100]
  }
}
