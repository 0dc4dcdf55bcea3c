// bench.cpp: the simulated UART line.  UartRxStim shifts enqueued bytes out as start bit, eight
// data bits (least significant first) and stop bit, each lasting one bit period; UartTxMonitor
// recovers bytes from a line it samples once a tick.
module Uart {

  import opened Division

  type Octet = bv8

  // The waveform: level of the line at each tick, true for high (idle).
  type Wave = nat -> bool

  function BitMask(i: nat): Octet
    requires i < 8
  {
    if i == 0 then 1 else BitMask(i - 1) << 1
  }

  // The bits of b below bit i.
  function LowBits(b: Octet, i: nat): Octet
    requires i <= 8
  {
    if i == 0 then 0 else LowBits(b, i - 1) | (b & BitMask(i - 1))
  }

  function FrameBits(b: Octet): (bits: seq<bool>)
    ensures |bits| == 10
  {
    [false] + seq(8, i requires 0 <= i < 8 => b & BitMask(i) != 0) + [true]
  }

  function LineBits(bytes: seq<Octet>): (bits: seq<bool>)
    ensures |bits| == 10 * |bytes|
  {
    if bytes == [] then [] else LineBits(bytes[..|bytes| - 1]) + FrameBits(bytes[|bytes| - 1])
  }

  // ---- the monitor

  datatype State = Idle | Start | Data | Stop

  datatype Monitor = Monitor(state: State, left: nat, byte: Octet, index: nat)

  datatype Report = Nothing | Got(byte: Octet)

  // What one tick of the monitor does: the new state, and the byte it reports, if any.
  function Sample(m: Monitor, period: nat, line: bool): (r: (Monitor, Report))
    requires m.index < 8
    ensures r.0.index < 8
  {
    match m.state
    case Idle =>
      if !line then (m.(state := Start, left := period / 2), Nothing) else (m, Nothing)
    case Start =>
      if m.left > 0 then (m.(left := m.left - 1), Nothing)
      else if !line then (Monitor(Data, period, 0, 0), Nothing)
      else (m.(state := Idle), Nothing)
    case Data =>
      if m.left > 0 then (m.(left := m.left - 1), Nothing)
      else
        var byte := if line then m.byte | BitMask(m.index) else m.byte;
        if m.index == 7 then (Monitor(Stop, period, byte, 7), Nothing)
        else (Monitor(Data, period, byte, m.index + 1), Nothing)
    case Stop =>
      if m.left > 0 then (m.(left := m.left - 1), Nothing)
      else (m.(state := Idle), if line then Got(m.byte) else Nothing)
  }

  const Fresh := Monitor(Idle, 0, 0, 0)

  // State and reported bytes so far.
  datatype Trace = Trace(mon: Monitor, out: seq<Octet>)

  function Watch(w: Wave, period: nat, n: nat): (r: Trace)
    ensures r.mon.index < 8
  {
    if n == 0 then Trace(Fresh, [])
    else
      var t := Watch(w, period, n - 1);
      var (m, report) := Sample(t.mon, period, w(n - 1));
      Trace(m, if report.Got? then t.out + [report.byte] else t.out)
  }

  lemma {:induction false} ReportsGrow(w: Wave, period: nat, n: nat, k: nat)
    ensures Watch(w, period, n).out <= Watch(w, period, n + k).out
    decreases k
  {
    if k > 0 {
      ReportsGrow(w, period, n, k - 1);
    }
  }

  lemma OneTick(w: Wave, period: nat, n: nat)
    ensures var t := Watch(w, period, n);
            var (m, report) := Sample(t.mon, period, w(n));
            Watch(w, period, n + 1) == Trace(m, if report.Got? then t.out + [report.byte] else t.out)
  {
  }

  lemma {:induction false} CountDown(w: Wave, period: nat, n: nat, k: nat)
    requires Watch(w, period, n).mon.state != Idle && k <= Watch(w, period, n).mon.left
    ensures var t := Watch(w, period, n);
            Watch(w, period, n + k) == t.(mon := t.mon.(left := t.mon.left - k))
    decreases k
  {
    if k > 0 {
      CountDown(w, period, n, k - 1);
    }
  }

  lemma {:induction false} StayIdle(w: Wave, period: nat, n: nat, m: nat)
    requires n <= m && Watch(w, period, n).mon.state == Idle
    requires forall t :: n <= t < m ==> w(t)
    ensures Watch(w, period, m) == Watch(w, period, n)
    decreases m
  {
    if n < m {
      StayIdle(w, period, n, m - 1);
    }
  }

  lemma DataBit(w: Wave, period: nat, n: nat, i: nat, byte: Octet, out: seq<Octet>)
    requires i < 8 && Watch(w, period, n) == Trace(Monitor(Data, period, byte, i), out)
    ensures var byte' := if w(n + period) then byte | BitMask(i) else byte;
            Watch(w, period, n + period + 1) ==
            Trace(if i < 7 then Monitor(Data, period, byte', i + 1) else Monitor(Stop, period, byte', 7), out)
  {
    CountDown(w, period, n, period);
    OneTick(w, period, n + period);
  }

  // Sampling points of a frame whose start edge is seen at tick t: point 0 checks the start
  // bit, points 1 to 8 take the data bits and point 9 the stop bit.
  function Point(period: nat, t: nat, k: nat): nat {
    if k == 0 then t + period / 2 + 1 else Point(period, t, k - 1) + period + 1
  }

  // The byte made of the first k data samples.
  function Sampled(w: Wave, period: nat, t: nat, k: nat): Octet
    requires k <= 8
  {
    if k == 0 then 0
    else
      var b := Sampled(w, period, t, k - 1);
      if w(Point(period, t, k)) then b | BitMask(k - 1) else b
  }

  predicate SeesStart(w: Wave, period: nat, t: nat) {
    Watch(w, period, t).mon.state == Idle && !w(t) && !w(Point(period, t, 0))
  }

  function Phase(w: Wave, period: nat, t: nat, k: nat): Trace
    requires k <= 8
  {
    var byte := Sampled(w, period, t, k);
    Trace(if k < 8 then Monitor(Data, period, byte, k) else Monitor(Stop, period, byte, 7),
          Watch(w, period, t).out)
  }

  lemma StartBit(w: Wave, period: nat, t: nat)
    requires SeesStart(w, period, t)
    ensures Watch(w, period, Point(period, t, 0) + 1) == Phase(w, period, t, 0)
  {
    OneTick(w, period, t);
    CountDown(w, period, t + 1, period / 2);
    OneTick(w, period, t + 1 + period / 2);
  }

  lemma {:induction false} DataPhase(w: Wave, period: nat, t: nat, k: nat)
    requires SeesStart(w, period, t) && k <= 8
    ensures Watch(w, period, Point(period, t, k) + 1) == Phase(w, period, t, k)
    decreases k
  {
    hide Watch;
    if k == 0 {
      StartBit(w, period, t);
    } else {
      DataPhase(w, period, t, k - 1);
      var n := Point(period, t, k - 1) + 1;
      assert Point(period, t, k) == n + period;
      DataBit(w, period, n, k - 1, Sampled(w, period, t, k - 1), Watch(w, period, t).out);
    }
  }

  // Whatever the line does otherwise, a frame whose start is seen at tick t ends after its
  // tenth sampling point with the monitor idle again, and reports the sampled byte exactly when
  // the stop sample is high.
  lemma FrameSeen(w: Wave, period: nat, t: nat)
    requires SeesStart(w, period, t)
    ensures var n := Point(period, t, 9);
            && Watch(w, period, n + 1).mon.state == Idle
            && Watch(w, period, n + 1).out ==
               Watch(w, period, t).out + (if w(n) then [Sampled(w, period, t, 8)] else [])
            && Watch(w, period, n).out == Watch(w, period, t).out
  {
    DataPhase(w, period, t, 8);
    CountDown(w, period, Point(period, t, 8) + 1, period);
  }

  // ---- the stimulus

  // The level of the line t ticks after the first of these bits begins, each lasting a period.
  function Level(bits: seq<bool>, period: nat, t: nat): bool
    requires period > 0
    decreases t
  {
    if bits == [] then true
    else if t < period then bits[0]
    else Level(bits[1..], period, t - period)
  }

  function Drive(bits: seq<bool>, period: nat): Wave
    requires period > 0
  {
    (t: nat) => Level(bits, period, t)
  }

  lemma {:induction false} LevelAt(bits: seq<bool>, period: nat, i: nat, r: nat)
    requires r < period
    ensures Level(bits, period, i * period + r) == if i < |bits| then bits[i] else true
    decreases i
  {
    assert i > 0 ==> i * period == (i - 1) * period + period;
    if i > 0 && bits != [] {
      LevelAt(bits[1..], period, i - 1, r);
    }
  }

  lemma {:induction false} LineBitsAt(bytes: seq<Octet>, j: nat, i: nat)
    requires j < |bytes| && i < 10
    ensures LineBits(bytes)[10 * j + i] == FrameBits(bytes[j])[i]
  {
    if j < |bytes| - 1 {
      LineBitsAt(bytes[..|bytes| - 1], j, i);
    }
  }

  // ---- round trip

  lemma {:induction false} PointIs(period: nat, t: nat, k: nat)
    ensures Point(period, t, k) == t + period / 2 + 1 + k * period + k
  {
    if k > 0 {
      PointIs(period, t, k - 1);
      assert (k - 1) * period + period == k * period;
    }
  }

  // The tick at which frame j begins.
  function FrameTime(period: nat, j: nat): nat {
    if j == 0 then 0 else FrameTime(period, j - 1) + 10 * period
  }

  lemma {:induction false} FrameTimeIs(period: nat, j: nat)
    ensures FrameTime(period, j) == 10 * j * period
  {
    if j > 0 {
      FrameTimeIs(period, j - 1);
      assert 10 * j * period == 10 * (j - 1) * period + 10 * period;
    }
  }

  lemma BitTime(period: nat, j: nat, i: nat)
    ensures FrameTime(period, j) + i * period == (10 * j + i) * period
  {
    FrameTimeIs(period, j);
  }

  lemma LevelIn(bytes: seq<Octet>, period: nat, j: nat, i: nat, r: nat)
    requires r < period && j < |bytes| && i < 10
    ensures Level(LineBits(bytes), period, FrameTime(period, j) + i * period + r) == FrameBits(bytes[j])[i]
  {
    BitTime(period, j, i);
    LevelAt(LineBits(bytes), period, 10 * j + i, r);
    LineBitsAt(bytes, j, i);
  }

  // Bit periods with which the monitor recovers what the stimulus sends.
  predicate Fits(stim: nat, mon: nat) {
    mon > 0 && (stim == mon + 1 || stim == mon >= 21)
  }

  // Point k of a frame falls inside the frame's bit k: the monitor takes one tick more than its
  // period for a bit, so it keeps its place if the stimulus does too, and otherwise drifts by
  // one tick a bit, which half a period has room for.
  lemma SampleLevel(bytes: seq<Octet>, stim: nat, mon: nat, j: nat, k: nat)
    requires Fits(stim, mon) && j < |bytes| && k <= 9
    ensures Level(LineBits(bytes), stim, Point(mon, FrameTime(stim, j), k)) == FrameBits(bytes[j])[k]
  {
    PointIs(mon, FrameTime(stim, j), k);
    hide Level;
    hide LineBits;
    hide FrameBits;
    if stim == mon {
      LevelIn(bytes, stim, j, k, mon / 2 + k + 1);
    } else {
      assert k * stim == k * mon + k;
      LevelIn(bytes, stim, j, k, mon / 2 + 1);
    }
  }

  // The start bit pulls the line low at once, the stop bit holds it high until the next frame.
  lemma FrameEdges(bytes: seq<Octet>, stim: nat, j: nat)
    requires stim > 0 && j < |bytes|
    ensures var w, t := Drive(LineBits(bytes), stim), FrameTime(stim, j);
            !w(t) && forall n :: t + 9 * stim <= n < t + 10 * stim ==> w(n)
  {
    var w, t := Drive(LineBits(bytes), stim), FrameTime(stim, j);
    LevelIn(bytes, stim, j, 0, 0);
    forall n | t + 9 * stim <= n < t + 10 * stim ensures w(n) {
      LevelIn(bytes, stim, j, 9, n - t - 9 * stim);
    }
  }

  lemma {:induction false} SampledIs(bytes: seq<Octet>, stim: nat, mon: nat, j: nat, k: nat)
    requires Fits(stim, mon) && j < |bytes| && k <= 8
    ensures Sampled(Drive(LineBits(bytes), stim), mon, FrameTime(stim, j), k) == LowBits(bytes[j], k)
  {
    if k > 0 {
      SampledIs(bytes, stim, mon, j, k - 1);
      SampleLevel(bytes, stim, mon, j, k);
      MaskBit(bytes[j], k - 1);
    }
  }

  lemma MaskBit(b: Octet, i: nat)
    requires i < 8
    ensures b & BitMask(i) == if b & BitMask(i) != 0 then BitMask(i) else 0
  {
    assert BitMask(1) == 0x02;
    assert BitMask(2) == 0x04;
    assert BitMask(3) == 0x08;
    assert BitMask(4) == 0x10;
    assert BitMask(5) == 0x20;
    assert BitMask(6) == 0x40;
    assert BitMask(7) == 0x80;
    assert i == 0 || i == 1 || i == 2 || i == 3 || i == 4 || i == 5 || i == 6 || i == 7;
  }

  lemma AllBits(b: Octet)
    ensures LowBits(b, 8) == b
  {
    assert LowBits(b, 1) == b & 0x01;
    assert LowBits(b, 2) == b & 0x03;
    assert LowBits(b, 3) == b & 0x07;
    assert LowBits(b, 4) == b & 0x0F;
    assert LowBits(b, 5) == b & 0x1F;
    assert LowBits(b, 6) == b & 0x3F;
    assert LowBits(b, 7) == b & 0x7F;
    assert LowBits(b, 8) == b & 0xFF;
  }

  // The start bit is seen low, the stop bit high.
  lemma EndBits(bytes: seq<Octet>, stim: nat, mon: nat, j: nat)
    requires Fits(stim, mon) && j < |bytes|
    ensures var w, t := Drive(LineBits(bytes), stim), FrameTime(stim, j);
            !w(t) && !w(Point(mon, t, 0)) && w(Point(mon, t, 9))
  {
    FrameEdges(bytes, stim, j);
    SampleLevel(bytes, stim, mon, j, 0);
    SampleLevel(bytes, stim, mon, j, 9);
  }

  lemma OneFrame(bytes: seq<Octet>, stim: nat, mon: nat, j: nat)
    requires Fits(stim, mon) && j < |bytes|
    requires Watch(Drive(LineBits(bytes), stim), mon, FrameTime(stim, j)).mon.state == Idle
    ensures var w, t := Drive(LineBits(bytes), stim), FrameTime(stim, j);
            var r := Watch(w, mon, Point(mon, t, 9) + 1);
            r.mon.state == Idle && r.out == Watch(w, mon, t).out + [bytes[j]]
  {
    hide Watch;
    hide Drive;
    hide LineBits;
    hide Sampled;
    hide Point;
    hide FrameTime;
    hide LowBits;
    EndBits(bytes, stim, mon, j);
    FrameSeen(Drive(LineBits(bytes), stim), mon, FrameTime(stim, j));
    SampledIs(bytes, stim, mon, j, 8);
    AllBits(bytes[j]);
  }

  lemma LastPoint(stim: nat, mon: nat, t: nat)
    requires Fits(stim, mon)
    ensures t + 9 * stim <= Point(mon, t, 9) + 1 <= t + 10 * stim
  {
    PointIs(mon, t, 9);
  }

  lemma Settle(bytes: seq<Octet>, stim: nat, mon: nat, j: nat, n: nat)
    requires stim > 0 && j < |bytes|
    requires FrameTime(stim, j) + 9 * stim <= n <= FrameTime(stim, j) + 10 * stim
    requires Watch(Drive(LineBits(bytes), stim), mon, n).mon.state == Idle
    ensures var w := Drive(LineBits(bytes), stim);
            Watch(w, mon, FrameTime(stim, j) + 10 * stim) == Watch(w, mon, n)
  {
    FrameEdges(bytes, stim, j);
    StayIdle(Drive(LineBits(bytes), stim), mon, n, FrameTime(stim, j) + 10 * stim);
  }

  lemma NextFrame(bytes: seq<Octet>, stim: nat, mon: nat, j: nat, t: nat, n: nat)
    requires Fits(stim, mon) && j < |bytes| && t == FrameTime(stim, j) && n == t + 10 * stim
    requires Watch(Drive(LineBits(bytes), stim), mon, t).mon.state == Idle
    ensures var w := Drive(LineBits(bytes), stim);
            && Watch(w, mon, n).mon.state == Idle
            && Watch(w, mon, n).out == Watch(w, mon, t).out + [bytes[j]]
  {
    hide Watch;
    hide Drive;
    hide LineBits;
    hide Point;
    OneFrame(bytes, stim, mon, j);
    LastPoint(stim, mon, t);
    Settle(bytes, stim, mon, j, Point(mon, t, 9) + 1);
  }

  // When frame j begins the monitor is idle again and has reported the first j bytes: whatever
  // it drifted in one frame is gone in the next.
  lemma {:induction false} InStep(bytes: seq<Octet>, stim: nat, mon: nat, j: nat)
    requires Fits(stim, mon) && j <= |bytes|
    ensures var t := Watch(Drive(LineBits(bytes), stim), mon, FrameTime(stim, j));
            t.mon.state == Idle && t.out == bytes[..j]
    decreases j
  {
    if j > 0 {
      InStep(bytes, stim, mon, j - 1);
      NextFrame(bytes, stim, mon, j - 1, FrameTime(stim, j - 1), FrameTime(stim, j));
      assert bytes[..j] == bytes[..j - 1] + [bytes[j - 1]];
    }
  }

  // After the last frame the line stays high, so nothing more is ever reported.
  lemma RoundTrip(bytes: seq<Octet>, stim: nat, mon: nat, n: nat)
    requires Fits(stim, mon) && n >= FrameTime(stim, |bytes|)
    ensures Watch(Drive(LineBits(bytes), stim), mon, n).out == bytes
  {
    InStep(bytes, stim, mon, |bytes|);
    var w, t := Drive(LineBits(bytes), stim), FrameTime(stim, |bytes|);
    forall k | t <= k < n ensures w(k) {
      HighAfter(bytes, stim, k);
    }
    StayIdle(w, mon, t, n);
  }

  lemma HighAfter(bytes: seq<Octet>, period: nat, t: nat)
    requires period > 0 && t >= FrameTime(period, |bytes|)
    ensures Level(LineBits(bytes), period, t)
  {
    FrameTimeIs(period, |bytes|);
    HighEnd(LineBits(bytes), period, t);
  }

  lemma {:induction false} HighEnd(bits: seq<bool>, period: nat, t: nat)
    requires period > 0 && t >= |bits| * period
    ensures Level(bits, period, t)
    decreases t
  {
    if bits != [] {
      assert |bits| * period == |bits[1..]| * period + period;
      HighEnd(bits[1..], period, t - period);
    }
  }

  // ---- every other pair of periods fails

  // Two zero bytes: low for nine periods, high for one, low for nine, then high for good.
  lemma TwoZeros(period: nat, t: nat)
    requires period > 0
    ensures Level(LineBits([0, 0]), period, t) == (9 * period <= t < 10 * period || t >= 19 * period)
  {
    var q, r := t / period, t % period;
    assert t == q * period + r;
    LevelAt(LineBits([0, 0]), period, q, r);
    TwoZeroBits(q);
    PeriodOf(period, q, r, 9);
    PeriodOf(period, q, r, 10);
    PeriodOf(period, q, r, 19);
  }

  lemma TwoZeroBits(q: nat)
    ensures |LineBits([0, 0])| == 20
    ensures q < 20 ==> LineBits([0, 0])[q] == (q == 9 || q == 19)
  {
    if q < 20 {
      LineBitsAt([0, 0], q / 10, q % 10);
      assert [0 as Octet, 0][q / 10] == 0;
    }
  }

  lemma PeriodOf(period: nat, q: nat, r: nat, m: nat)
    requires r < period
    ensures q * period + r < m * period <==> q < m
  {
    if q < m {
      assert (q + 1) * period <= m * period;
    } else {
      assert q * period >= m * period;
    }
  }

  lemma {:induction false} SampledGrows(w: Wave, period: nat, t: nat, k: nat, m: nat)
    requires k <= m <= 8 && Sampled(w, period, t, k) != 0
    ensures Sampled(w, period, t, m) != 0
    decreases m
  {
    if k < m {
      SampledGrows(w, period, t, k, m - 1);
    }
  }

  // At 20 ticks a bit or fewer the stop sample of the first zero byte falls beyond its stop
  // bit, and the first thing the monitor reports is not a zero byte.
  lemma WrongReport(period: nat) returns (n: nat)
    requires 1 <= period <= 20
    ensures var w := Drive(LineBits([0, 0]), period);
            && Watch(w, period, n).out == []
            && |Watch(w, period, n + 1).out| == 1 && Watch(w, period, n + 1).out[0] != 0
  {
    var w := Drive(LineBits([0, 0]), period);
    forall t: nat ensures w(t) == (9 * period <= t < 10 * period || t >= 19 * period) {
      TwoZeros(period, t);
    }
    forall t: nat, k: nat ensures Point(period, t, k) == t + period / 2 + 1 + k * period + k {
      PointIs(period, t, k);
    }
    if period == 1 {
      n := TooFast(w);
    } else {
      n := Misaligned(w, period);
    }
  }

  lemma TooFast(w: Wave) returns (n: nat)
    requires forall t: nat :: w(t) == (t == 9 || t >= 19)
    requires forall t: nat, k: nat :: Point(1, t, k) == t + 1 + k + k
    ensures Watch(w, 1, n).out == []
    ensures |Watch(w, 1, n + 1).out| == 1 && Watch(w, 1, n + 1).out[0] != 0
  {
    FrameSeen(w, 1, 0);
    n := Point(1, 0, 9);
    assert w(Point(1, 0, 4));
    BitSet(Sampled(w, 1, 0, 3), 3);
    SampledGrows(w, 1, 0, 4, 8);
  }

  lemma Misaligned(w: Wave, period: nat) returns (n: nat)
    requires 2 <= period <= 20
    requires forall t: nat :: w(t) == (9 * period <= t < 10 * period || t >= 19 * period)
    requires forall t: nat, k: nat :: Point(period, t, k) == t + period / 2 + 1 + k * period + k
    ensures Watch(w, period, n).out == []
    ensures |Watch(w, period, n + 1).out| == 1 && Watch(w, period, n + 1).out[0] != 0
  {
    FrameSeen(w, period, 0);
    var t := Point(period, 0, 9) + 1;
    FrameSeen(w, period, t);
    n := Point(period, t, 9);
    assert w(Point(period, t, 8));
    BitSet(Sampled(w, period, t, 7), 7);
  }

  lemma BitSet(b: Octet, i: nat)
    requires i == 3 || i == 7
    ensures b | BitMask(i) != 0
  {
    assert BitMask(3) == 0x08;
    assert BitMask(7) == 0x80;
  }

  predicate Faithful(stim: nat, mon: nat, bytes: seq<Octet>, n: nat)
    requires stim > 0
  {
    Watch(Drive(LineBits(bytes), stim), mon, n).out == bytes
  }

  // Every byte sequence comes back, from the end of its last frame on.
  ghost predicate Reliable(stim: nat, mon: nat)
    requires stim > 0
  {
    forall bytes, n :: n >= FrameTime(stim, |bytes|) ==> Faithful(stim, mon, bytes, n)
  }

  lemma Tight(period: nat)
    requires 1 <= period <= 20
    ensures !Reliable(period, period)
  {
    var n := WrongReport(period);
    var m := n + 1 + FrameTime(period, 2);
    ReportsGrow(Drive(LineBits([0, 0]), period), period, n + 1, FrameTime(period, 2));
    assert |[0 as Octet, 0]| == 2;
    assert !Faithful(period, period, [0, 0], m);
  }

  // A zero byte sent with one tick a bit, to a monitor that takes longer: the start bit is over
  // when it is checked, or all is high again before the last data bit is taken.
  lemma Overtaken(mon: nat)
    requires mon > 1
    ensures !Reliable(1, mon)
  {
    var w, n := Drive(LineBits([0]), 1), Point(mon, 0, 9) + 1;
    forall t: nat ensures w(t) == (t >= 9) {
      OneZero(t);
    }
    PointIs(mon, 0, 0);
    PointIs(mon, 0, 8);
    PointIs(mon, 0, 9);
    if mon / 2 + 1 < 9 {
      LastBitHigh(w, mon);
    } else {
      StartMissed(w, mon, n);
    }
    assert |[0 as Octet]| == 1 && FrameTime(1, 1) == 10;
    assert !Faithful(1, mon, [0], n);
  }

  lemma LastBitHigh(w: Wave, mon: nat)
    requires forall t: nat :: w(t) == (t >= 9)
    requires Point(mon, 0, 0) < 9 <= Point(mon, 0, 8) <= Point(mon, 0, 9)
    ensures var out := Watch(w, mon, Point(mon, 0, 9) + 1).out; |out| == 1 && out[0] != 0
  {
    hide Sampled;
    hide Point;
    FrameSeen(w, mon, 0);
    LastBitSet(w, mon, 0);
  }

  lemma LastBitSet(w: Wave, mon: nat, t: nat)
    requires w(Point(mon, t, 8))
    ensures Sampled(w, mon, t, 8) != 0
  {
    hide Point;
    BitSet(Sampled(w, mon, t, 7), 7);
    hide BitMask;
    assert Sampled(w, mon, t, 8) == Sampled(w, mon, t, 7) | BitMask(7);
  }

  lemma StartMissed(w: Wave, mon: nat, n: nat)
    requires mon / 2 + 1 >= 9 && n >= mon / 2 + 2 && forall t: nat :: w(t) == (t >= 9)
    ensures Watch(w, mon, n).out == []
  {
    OneTick(w, mon, 0);
    CountDown(w, mon, 1, mon / 2);
    OneTick(w, mon, mon / 2 + 1);
    StayIdle(w, mon, mon / 2 + 2, n);
  }

  lemma OneZero(t: nat)
    ensures Level(LineBits([0]), 1, t) == (t >= 9)
  {
    assert t * 1 + 0 == t;
    LevelAt(LineBits([0]), 1, t, 0);
    if t < 10 {
      LineBitsAt([0], 0, t);
    }
  }

  // ---- the periods

  const RANGE := 0x1_0000_0000

  type Uint32 = x: int | 0 <= x < RANGE

  function Baud(baud: Uint32): (b: int)
    ensures 0 < b < RANGE
  {
    if baud == 0 then 115200 else baud
  }

  // The two set_params.  The sum is a 32-bit one.
  function StimulusPeriod(clk: Uint32, baud: Uint32): (ticks: nat)
    ensures ticks > 0
  {
    var ticks := (clk + Baud(baud) / 2) % RANGE / Baud(baud);
    if ticks == 0 then 1 else ticks
  }

  function MonitorPeriod(clk: Uint32, baud: Uint32): (ticks: nat)
    ensures ticks > 0
  {
    var ticks := clk / Baud(baud);
    if ticks == 0 then 1 else ticks
  }

  // As long as the sum does not wrap the periods are equal, or the stimulus has one tick more:
  // that exactly if the rest of the division is at least half the baud rate.  If it wraps, the
  // stimulus takes one tick a bit.
  lemma Periods(clk: Uint32, baud: Uint32)
    ensures var b, s, m := Baud(baud), StimulusPeriod(clk, baud), MonitorPeriod(clk, baud);
            if clk + b / 2 >= RANGE then s == 1
            else s == if clk >= b && clk % b + b / 2 >= b then m + 1 else m
  {
    PeriodsOf(clk, Baud(baud));
  }

  lemma PeriodsOf(c: int, b: int)
    requires 0 <= c < RANGE && 0 < b < RANGE
    ensures if c + b / 2 >= RANGE then (c + b / 2) % RANGE / b == 0
            else (c + b / 2) % RANGE / b == c / b + if c % b + b / 2 >= b then 1 else 0
    ensures if c < b then c / b == 0 && c % b == c else c / b > 0
  {
    Rounded(c, b, b / 2, c / b, c % b);
    if c < b {
      QuotientIs(c, b, 0, c);
    }
  }

  lemma Rounded(c: int, b: int, h: int, q: int, r: int)
    requires 0 <= c < RANGE && 0 <= h < b < RANGE && c == b * q + r && 0 <= r < b
    ensures (c + h) % RANGE == if c + h >= RANGE then c + h - RANGE else c + h
    ensures c + h >= RANGE ==> (c + h - RANGE) / b == 0
    ensures (c + h) / b == q + if r + h >= b then 1 else 0
  {
    if c + h >= RANGE {
      QuotientIs(c + h - RANGE, b, 0, c + h - RANGE);
    }
    if r + h >= b {
      Distribute(b, q);
      QuotientIs(c + h, b, q + 1, r + h - b);
    } else {
      QuotientIs(c + h, b, q, r + h);
    }
  }

  lemma Distribute(b: int, q: int)
    ensures b * (q + 1) == b * q + b
  {
  }

  // The loop back returns every byte sequence exactly when the stimulus takes one tick a bit
  // more than the monitor, or as many and at least 21; other pairs set_params does not make.
  lemma TightBound(stim: nat, mon: nat)
    requires mon > 0 && (stim == mon || stim == mon + 1 || stim == 1)
    ensures Reliable(stim, mon) <==> stim == mon + 1 || stim == mon >= 21
  {
    if Fits(stim, mon) {
      forall bytes, n | n >= FrameTime(stim, |bytes|) ensures Faithful(stim, mon, bytes, n) {
        RoundTrip(bytes, stim, mon, n);
      }
    } else if stim == mon {
      Tight(stim);
    } else {
      Overtaken(mon);
    }
  }

  // In terms of what both are set from: the rest of the division is at least half the baud
  // rate, or the quotient is at least 21, and the sum does not wrap.
  lemma ReliableRates(clk: Uint32, baud: Uint32)
    ensures var b := Baud(baud);
            Reliable(StimulusPeriod(clk, baud), MonitorPeriod(clk, baud)) <==>
            clk + b / 2 < RANGE && (clk / b >= 21 || (clk >= b && clk % b + b / 2 >= b))
  {
    hide Reliable;
    Periods(clk, baud);
    PeriodsOf(clk, Baud(baud));
    TightBound(StimulusPeriod(clk, baud), MonitorPeriod(clk, baud));
  }

  // ---- the objects

  class UartRxStim {
    var baudTicks: nat
    var cyclesLeft: nat
    var line: bool
    var bits: seq<bool>

    constructor (clk: Uint32, baud: Uint32)
      ensures baudTicks == StimulusPeriod(clk, baud) && cyclesLeft == 0 && line && bits == []
    {
      baudTicks, cyclesLeft, line, bits := StimulusPeriod(clk, baud), 0, true, [];
    }

    // The level the line will have t ticks from now.
    function Future(t: nat): bool
      requires baudTicks > 0
      reads this
    {
      if t < cyclesLeft then line else Level(bits, baudTicks, t - cyclesLeft)
    }

    method EnqueueByte(b: Octet)
      modifies this`bits
      ensures bits == old(bits) + FrameBits(b)
    {
      bits := bits + [false];
      var i := 0;
      while i < 8
        invariant 0 <= i <= 8
        invariant bits == old(bits) + FrameBits(b)[..i + 1]
      {
        bits := bits + [b & BitMask(i) != 0];
        i := i + 1;
      }
      bits := bits + [true];
    }

    method EnqueueBytes(s: seq<Octet>)
      modifies this`bits
      ensures bits == old(bits) + LineBits(s)
    {
      for i := 0 to |s|
        invariant bits == old(bits) + LineBits(s[..i])
      {
        EnqueueByte(s[i]);
        assert s[..i + 1][..i] == s[..i];
      }
      assert s[..|s|] == s;
    }

    method Tick()
      requires baudTicks > 0
      modifies this`cyclesLeft, this`line, this`bits
      ensures line == old(Future(0))
      ensures forall t: nat :: Future(t) == old(Future(t + 1))
    {
      if cyclesLeft > 0 {
        cyclesLeft := cyclesLeft - 1;
        return;
      }
      if bits != [] {
        line := bits[0];
        bits := bits[1..];
        cyclesLeft := baudTicks - 1;
        return;
      }
      line := true;
      cyclesLeft := 0;
    }
  }

  class UartTxMonitor {
    var state: State
    var baudTicks: nat
    var ticksLeft: nat
    var byte: Octet
    var bitIndex: nat

    constructor (clk: Uint32, baud: Uint32)
      ensures baudTicks == MonitorPeriod(clk, baud) && View() == Fresh
    {
      state, baudTicks, ticksLeft, byte, bitIndex := Idle, MonitorPeriod(clk, baud), 0, 0, 0;
    }

    function View(): Monitor
      reads this
    {
      Monitor(state, ticksLeft, byte, bitIndex)
    }

    method Tick(line: bool) returns (report: Report)
      requires bitIndex < 8
      modifies this`state, this`ticksLeft, this`byte, this`bitIndex
      ensures (View(), report) == Sample(old(View()), baudTicks, line)
    {
      report := Nothing;
      match state
      case Idle =>
        if !line {
          state, ticksLeft := Start, baudTicks / 2;
        }
      case Start =>
        if ticksLeft > 0 {
          ticksLeft := ticksLeft - 1;
        } else if !line {
          state, bitIndex, byte, ticksLeft := Data, 0, 0, baudTicks;
        } else {
          state := Idle;
        }
      case Data =>
        if ticksLeft > 0 {
          ticksLeft := ticksLeft - 1;
        } else {
          TakeBit(line);
        }
      case Stop =>
        if ticksLeft > 0 {
          ticksLeft := ticksLeft - 1;
        } else {
          state := Idle;
          report := if line then Got(byte) else Nothing;
        }
    }

    method TakeBit(line: bool)
      requires bitIndex < 8 && state == Data && ticksLeft == 0
      modifies this`state, this`ticksLeft, this`byte, this`bitIndex
      ensures View() == Sample(old(View()), baudTicks, line).0
    {
      hide BitMask;
      if line {
        byte := byte | BitMask(bitIndex);
      }
      if bitIndex == 7 {
        state := Stop;
      } else {
        bitIndex := bitIndex + 1;
      }
      ticksLeft := baudTicks;
    }
  }

  // The two objects wired together for a number of ticks.
  method LoopBack(bytes: seq<Octet>, clk: Uint32, baud: Uint32, ticks: nat) returns (out: seq<Octet>)
    ensures var s, m := StimulusPeriod(clk, baud), MonitorPeriod(clk, baud);
            && out == Watch(Drive(LineBits(bytes), s), m, ticks).out
            && (Fits(s, m) && ticks >= FrameTime(s, |bytes|) ==> out == bytes)
  {
    var stim := new UartRxStim(clk, baud);
    var monitor := new UartTxMonitor(clk, baud);
    stim.EnqueueBytes(bytes);
    ghost var s, m := StimulusPeriod(clk, baud), MonitorPeriod(clk, baud);
    ghost var w := Drive(LineBits(bytes), s);
    assert stim.bits == LineBits(bytes);
    out := [];
    for n := 0 to ticks
      invariant stim.baudTicks == s && monitor.baudTicks == m
      invariant forall t: nat, k: nat :: k == n + t ==> stim.Future(t) == w(k)
      invariant Trace(monitor.View(), out) == Watch(w, m, n)
    {
      stim.Tick();
      var report := monitor.Tick(stim.line);
      if report.Got? {
        out := out + [report.byte];
      }
    }
    if Fits(s, m) && ticks >= FrameTime(s, |bytes|) {
      RoundTrip(bytes, s, m, ticks);
    }
  }
}
