/**
 One pass of the demo's forever loop in `main`: the LED blink counter and the
 frame-timing report with its monotonicity guard.

 The hardware is reduced to what the loop sees of it: the serial port is the
 sequence of bytes sent so far, the LED is a bool that a toggle flips, and
 the timer read is the parameter of a step.
 */
module MainLoop {
  import opened Report

  /** `cnt` counts up to this value before the next frame resets it. */
  const BlinkLimit: nat := 1000

  /** Frames between two LED toggles: the counter runs through 0..BlinkLimit+1. */
  const BlinkPeriod: nat := BlinkLimit + 2

  /** The blink counter after a frame, and whether that frame toggled the LED. */
  datatype Blink = Blink(cnt: nat, toggle: bool)

  /** The post-increment test `if (cnt++ > 1000) { cnt = 0; toggle }`. */
  function BlinkStep(cnt: nat): (b: Blink)
    ensures b.cnt <= BlinkLimit + 1
    ensures b.toggle <==> b.cnt == 0
    ensures b.toggle <==> cnt > BlinkLimit
  {
    if cnt > BlinkLimit then Blink(0, true) else Blink(cnt + 1, false)
  }

  /** The counter after n frames, starting from `cnt = 0`. */
  function CounterAfter(n: nat): nat
  {
    if n == 0 then 0 else BlinkStep(CounterAfter(n - 1)).cnt
  }

  /** The number of LED toggles in the first n frames. */
  function TogglesAfter(n: nat): nat
  {
    if n == 0 then 0
    else TogglesAfter(n - 1) + (if BlinkStep(CounterAfter(n - 1)).toggle then 1 else 0)
  }

  /** Quotient and remainder by the blink period are determined by n = q*1002 + r. */
  lemma DivModPeriod(n: nat, q: nat, r: nat)
    requires r < 1002 && n == q * 1002 + r
    ensures n / BlinkPeriod == q && n % BlinkPeriod == r
  {
  }

  /** n is its quotient by the blink period times 1002 plus its remainder. */
  lemma SplitPeriod(n: nat)
    ensures n == (n / BlinkPeriod) * 1002 + n % BlinkPeriod && n % BlinkPeriod < 1002
  {
  }

  /** The blink schedule: after n frames the counter is n mod 1002 and the LED
      has toggled once per 1002 frames. */
  lemma {:induction false} BlinkSchedule(n: nat)
    ensures CounterAfter(n) == n % BlinkPeriod
    ensures TogglesAfter(n) == n / BlinkPeriod
  {
    if n > 0 {
      BlinkSchedule(n - 1);
      var c, t := CounterAfter(n - 1), TogglesAfter(n - 1);
      SplitPeriod(n - 1);
      if c > BlinkLimit {
        DivModPeriod(n, t + 1, 0);
      } else {
        DivModPeriod(n, t, c + 1);
      }
    }
  }

  /** Frame n+1 toggles the LED exactly when n+1 is a multiple of 1002. */
  lemma ToggleFrames(n: nat)
    ensures BlinkStep(CounterAfter(n)).toggle <==> (n + 1) % BlinkPeriod == 0
  {
    BlinkSchedule(n);
    var q, r := n / BlinkPeriod, n % BlinkPeriod;
    SplitPeriod(n);
    if r == 1001 {
      DivModPeriod(n + 1, q + 1, 0);
    } else {
      DivModPeriod(n + 1, q, r + 1);
    }
  }

  /** The first toggle happens in frame 1002, not earlier. */
  lemma FirstToggle()
    ensures TogglesAfter(BlinkPeriod - 1) == 0
    ensures TogglesAfter(BlinkPeriod) == 1
  {
    BlinkSchedule(BlinkPeriod - 1);
    BlinkSchedule(BlinkPeriod);
  }

  /** What the timing part of a frame leaves behind: the new `time_past`, and
      the bytes sent (empty when the guard skips the report). */
  datatype Timing = Timing(past: nat, line: seq<Byte>)

  /** The guard `time_now > time_past` and the report it lets through. */
  function TimingStep(past: nat, now: nat): (t: Timing)
    ensures t.past >= past
    ensures t.line != [] <==> now > past
    ensures t.line == [] ==> t.past == past
    ensures t.line != [] ==> t.past == now && ParseReport(t.line) == Some((now - past) % 0x1_0000_0000)
  {
    if now > past then
      ReportRoundTrip(now - past);
      Timing(now, FormatReport(now - past))
    else
      Timing(past, [])
  }

  /** Timer values are held in a 32-bit signed `long`. */
  const LongLimit: nat := 0x8000_0000

  /** For timer values that fit a `long`, a line is emitted and reads back as
      the tick delta itself. */
  lemma ReportIsDelta(past: nat, now: nat)
    requires past < now < LongLimit
    ensures TimingStep(past, now).line != []
    ensures ParseReport(TimingStep(past, now).line) == Some(now - past)
  {
    LowBitsOfLong(now - past);
  }

  /** A value below 2^31 is its own low 32 bits. */
  lemma LowBitsOfLong(d: nat)
    requires d < LongLimit
    ensures d % 0x1_0000_0000 == d
  {
  }

  /** `time_past` after a run of frames that read the timer values `ticks`. */
  function PastAfter(past: nat, ticks: seq<nat>): nat
    decreases |ticks|
  {
    if ticks == [] then past else PastAfter(TimingStep(past, ticks[0]).past, ticks[1..])
  }

  /** The sum of the tick deltas the guard lets through during a run of
      frames: each frame contributes the step `time_past` takes in it. */
  function Reported(past: nat, ticks: seq<nat>): nat
    decreases |ticks|
  {
    if ticks == [] then 0
    else
      var next := TimingStep(past, ticks[0]).past;
      (next - past) + Reported(next, ticks[1..])
  }

  /** The sum of the values a receiver reads from the lines sent during a run
      of frames; a frame that sends nothing contributes 0. */
  function Received(past: nat, ticks: seq<nat>): nat
    decreases |ticks|
  {
    if ticks == [] then 0
    else
      var t := TimingStep(past, ticks[0]);
      var v := match ParseReport(t.line) case Some(d) => d case None => 0;
      v + Received(t.past, ticks[1..])
  }

  /** `time_past` is the running maximum of the timer reads: it never
      decreases, it is at least every value read, and it is either where it
      started or one of the values read. */
  lemma {:induction false} PastIsRunningMax(past: nat, ticks: seq<nat>)
    ensures PastAfter(past, ticks) >= past
    ensures forall i :: 0 <= i < |ticks| ==> ticks[i] <= PastAfter(past, ticks)
    ensures PastAfter(past, ticks) == past || PastAfter(past, ticks) in ticks
    decreases |ticks|
  {
    if ticks != [] {
      var next := TimingStep(past, ticks[0]).past;
      PastIsRunningMax(next, ticks[1..]);
      forall i | 0 <= i < |ticks|
        ensures ticks[i] <= PastAfter(past, ticks)
      {
        if i > 0 {
          assert ticks[i] == ticks[1..][i - 1];
        }
      }
      if PastAfter(past, ticks) != past && PastAfter(past, ticks) != next {
        assert PastAfter(past, ticks) in ticks[1..];
      }
    }
  }

  /** The reported deltas add up to the advance of `time_past`: no tick is
      reported twice and none between the first and the last report is lost. */
  lemma {:induction false} ReportedIsAdvance(past: nat, ticks: seq<nat>)
    ensures PastAfter(past, ticks) >= past
    ensures Reported(past, ticks) == PastAfter(past, ticks) - past
    decreases |ticks|
  {
    if ticks != [] {
      ReportedIsAdvance(TimingStep(past, ticks[0]).past, ticks[1..]);
    }
  }

  /** For timer values that fit a `long`, the values read from the wire add
      up to the advance of `time_past`: the receiver sees every tick between
      the start and the last report exactly once. */
  lemma {:induction false} ReceivedIsAdvance(past: nat, ticks: seq<nat>)
    requires past < LongLimit
    requires forall i :: 0 <= i < |ticks| ==> ticks[i] < LongLimit
    ensures Received(past, ticks) == PastAfter(past, ticks) - past
    decreases |ticks|
  {
    if ticks != [] {
      var t := TimingStep(past, ticks[0]);
      if ticks[0] > past {
        ReportIsDelta(past, ticks[0]);
      }
      ReceivedIsAdvance(t.past, ticks[1..]);
    }
  }

  /** The state the forever loop of `main` carries from frame to frame. */
  class Demo {
    var cnt: nat
    var timePast: nat
    var led: bool
    var out: seq<Byte>

    ghost predicate Valid()
      reads this
    {
      cnt <= BlinkLimit + 1
    }

    /** The state on entry to the loop; the LED starts off. */
    constructor ()
      ensures Valid()
      ensures cnt == 0 && timePast == 0 && !led && out == []
    {
      cnt, timePast, led, out := 0, 0, false, [];
    }

    /** `usart_send_blocking`: the byte goes out after everything sent before. */
    method Send(b: Byte)
      modifies this`out
      ensures out == old(out) + [b]
    {
      out := out + [b];
    }

    /** `ascii`: the hundreds, tens and ones digit of b, one `Send` each. */
    method SendAscii(b: Byte)
      modifies this`out
      ensures out == old(out) + Ascii(b)
    {
      var hunds := b / 100;
      Send(hunds + DigitZero);
      var tens := (b - hunds * 100) / 10;
      Send(tens + DigitZero);
      var ones := b - hunds * 100 - tens * 10;
      Send(ones + DigitZero);
    }

    /** The timing line for a tick delta: its four bytes, most significant
        first, through `ascii`, separated by spaces, then CR LF. */
    method SendReport(time: nat)
      modifies this`out
      ensures out == old(out) + FormatReport(time)
    {
      SendAscii(ByteOf(time, 3));
      Send(Space);
      SendAscii(ByteOf(time, 2));
      Send(Space);
      SendAscii(ByteOf(time, 1));
      Send(Space);
      SendAscii(ByteOf(time, 0));
      Send(CR);
      Send(LF);
    }

    /** One pass of the loop, given the value the timer reads in it. */
    method Step(timeNow: nat)
      requires Valid()
      modifies this
      ensures Valid()
      ensures cnt == BlinkStep(old(cnt)).cnt
      ensures led == (old(led) != BlinkStep(old(cnt)).toggle)
      ensures timePast == TimingStep(old(timePast), timeNow).past
      ensures out == old(out) + TimingStep(old(timePast), timeNow).line
    {
      var before := cnt;
      cnt := cnt + 1;
      if before > BlinkLimit {
        cnt := 0;
        led := !led;
      }
      if timeNow > timePast {
        var time := timeNow - timePast;
        timePast := timeNow;
        SendReport(time);
      }
    }
  }
}
