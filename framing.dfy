/** Bus framing of the TM1640 two-wire bus (main/main.c:53-94): the start condition, the
    bit-level transmission of one byte, and the stop condition, as step lists. */
module Framing {
  import opened Gpio
  import opened Steps

  /** send_start: DATA low, 1 us, CLOCK low, 1 us. */
  function StartProg(): seq<Step>
  {
    [Step(SetLevel(DataPin, Low), 1, true),
     Step(SetLevel(ClockPin, Low), 1, true)]
  }

  /** Bit i of v as send_byte computes it: ((v & (1 << i)) >> i) taken as a bool. */
  function Bit(v: bv8, i: nat): (l: Level)
    requires i < 8
    ensures l == High <==> (v >> i) & 1 == 1
  {
    if (v & (1 << i)) >> i != 0 then High else Low
  }

  /** One iteration of send_byte's loop. Only the last bit's CLOCK-low result reaches the
      caller: in bits 0..6 it is overwritten by the next iteration's DATA write. */
  function BitProg(v: bv8, i: nat): seq<Step>
    requires i < 8
  {
    LevelProg(Bit(v, i), i == 7)
  }

  /** Putting level l on DATA and pulsing CLOCK; `last` tells whether the CLOCK-low result
      is the one returned. */
  function LevelProg(l: Level, last: bool): seq<Step>
  {
    [Step(SetLevel(DataPin, l), 1, true),
     Step(SetLevel(ClockPin, High), 2, true),
     Step(SetLevel(ClockPin, Low), 1, last)]
  }

  /** The iterations i .. 7 of send_byte's loop. */
  function BitsFrom(v: bv8, i: nat): seq<Step>
    requires i <= 8
    decreases 8 - i
  {
    if i == 8 then [] else BitProg(v, i) + BitsFrom(v, i + 1)
  }

  /** send_byte(v). */
  function ByteProg(v: bv8): seq<Step>
  {
    BitsFrom(v, 0)
  }

  /** send_byte for each byte of bs, in order, each checked by the caller. */
  function BytesProg(bs: seq<bv8>): seq<Step>
  {
    BytesFrom(bs, 0)
  }

  /** send_byte for bs[i], bs[i + 1], ... to the end. */
  function BytesFrom(bs: seq<bv8>, i: nat): seq<Step>
    requires i <= |bs|
    decreases |bs| - i
  {
    if i == |bs| then [] else ByteProg(bs[i]) + BytesFrom(bs, i + 1)
  }

  lemma {:induction false} BytesFromShift(b: bv8, bs: seq<bv8>, i: nat)
    requires i <= |bs|
    ensures BytesFrom([b] + bs, i + 1) == BytesFrom(bs, i)
    decreases |bs| - i
  {
    if i < |bs| {
      assert ([b] + bs)[i + 1] == bs[i];
      BytesFromShift(b, bs, i + 1);
    }
  }

  /** send_end: DATA low, 1 us, CLOCK high, 1 us, DATA high, 2 us. */
  function EndProg(): seq<Step>
  {
    [Step(SetLevel(DataPin, Low), 1, true),
     Step(SetLevel(ClockPin, High), 1, true),
     Step(SetLevel(DataPin, High), 2, true)]
  }

  /** One framed transaction carrying bs: start, each byte, end. */
  function TransactionProg(bs: seq<bv8>): seq<Step>
  {
    StartProg() + BytesProg(bs) + EndProg()
  }

  /** The six events of one transmitted bit. */
  function BitEvents(v: bv8, i: nat): seq<Event>
    requires i < 8
  {
    LevelEvents(Bit(v, i))
  }

  /** The events of one bit carrying level l: DATA set and its delay, then the CLOCK rise
      and its delay, then the CLOCK fall and its delay. Each prefix is where send_byte's
      loop can stop. */
  function DataEvents(l: Level): seq<Event>
  {
    [SetLevel(DataPin, l)] + [Delay(1)]
  }

  function RiseEvents(l: Level): seq<Event>
  {
    DataEvents(l) + [SetLevel(ClockPin, High)] + [Delay(2)]
  }

  function LevelEvents(l: Level): seq<Event>
  {
    RiseEvents(l) + [SetLevel(ClockPin, Low)] + [Delay(1)]
  }

  /** The levels of the CLOCK and DATA lines. */
  datatype Lines = Lines(clk: Level, data: Level)

  /** The line levels after event e. */
  function Drive(l: Lines, e: Event): Lines
  {
    match e
    case SetLevel(pin, level) =>
      if pin == ClockPin then l.(clk := level)
      else if pin == DataPin then l.(data := level)
      else l
    case _ => l
  }

  /** The DATA level, when e is a rising edge of CLOCK. */
  function Rise(l: Lines, e: Event): seq<Level>
  {
    if e == SetLevel(ClockPin, High) && l.clk == Low then [l.data] else []
  }

  /** The DATA level at each rising edge of CLOCK in t, starting from lines l. */
  function SampledData(t: seq<Event>, l: Lines): seq<Level>
    decreases |t|
  {
    if t == [] then [] else Rise(l, t[0]) + SampledData(t[1..], Drive(l, t[0]))
  }

  /** The line levels after t, starting from lines l. */
  function LinesAfter(t: seq<Event>, l: Lines): Lines
    decreases |t|
  {
    if t == [] then l else LinesAfter(t[1..], Drive(l, t[0]))
  }

  lemma SampledCons(e: Event, t: seq<Event>, l: Lines)
    ensures SampledData([e] + t, l) == Rise(l, e) + SampledData(t, Drive(l, e))
    ensures LinesAfter([e] + t, l) == LinesAfter(t, Drive(l, e))
  {
    assert ([e] + t)[0] == e;
    assert ([e] + t)[1..] == t;
  }

  lemma {:induction false} SampledAppend(s: seq<Event>, t: seq<Event>, l: Lines)
    ensures SampledData(s + t, l) == SampledData(s, l) + SampledData(t, LinesAfter(s, l))
    ensures LinesAfter(s + t, l) == LinesAfter(t, LinesAfter(s, l))
    decreases |s|
  {
    if s == [] {
      assert s + t == t;
    } else {
      assert s + t == [s[0]] + (s[1..] + t);
      SampledCons(s[0], s[1..] + t, l);
      SampledAppend(s[1..], t, Drive(l, s[0]));
      assert s == [s[0]] + s[1..];
      SampledCons(s[0], s[1..], l);
    }
  }

  /** One transmitted bit, with the clock low beforehand, raises the clock once while DATA
      carries the bit, and leaves CLOCK low and DATA at the bit. */
  lemma SampledBit(v: bv8, i: nat, l: Lines)
    requires i < 8 && l.clk == Low
    ensures SampledData(BitEvents(v, i), l) == [Bit(v, i)]
    ensures LinesAfter(BitEvents(v, i), l) == Lines(Low, Bit(v, i))
  {
    var e := BitEvents(v, i);
    var l1 := Lines(Low, Bit(v, i));
    var l3 := Lines(High, Bit(v, i));
    assert e == [e[0]] + ([e[1]] + ([e[2]] + ([e[3]] + ([e[4]] + [e[5]]))));
    SampledCons(e[5], [], l1);
    SampledCons(e[4], [e[5]], l3);
    SampledCons(e[3], [e[4]] + [e[5]], l3);
    SampledCons(e[2], [e[3]] + ([e[4]] + [e[5]]), l1);
    SampledCons(e[1], [e[2]] + ([e[3]] + ([e[4]] + [e[5]])), l1);
    SampledCons(e[0], [e[1]] + ([e[2]] + ([e[3]] + ([e[4]] + [e[5]]))), l);
  }

  /** The low n bits of v, least significant first: the low bit, then the rest of v
      shifted right by one. */
  function LsbFirst(v: bv8, n: nat): (bits: seq<Level>)
    ensures |bits| == n
  {
    if n == 0 then [] else [if v & 1 == 1 then High else Low] + LsbFirst(v >> 1, n - 1)
  }

  lemma ShiftOnce(v: bv8, k: nat)
    requires 0 < k < 8
    ensures (v >> 1) >> (k - 1) == v >> k
  {
    if k == 1 { } else if k == 2 { } else if k == 3 { } else if k == 4 { }
    else if k == 5 { } else if k == 6 { } else { }
  }

  lemma {:induction false} LsbFirstAt(v: bv8, n: nat, k: nat)
    requires k < n <= 8
    ensures LsbFirst(v, n)[k] == Bit(v, k)
  {
    if k > 0 {
      LsbFirstAt(v >> 1, n - 1, k - 1);
      ShiftOnce(v, k);
    }
  }

  /** send_start drives DATA low before CLOCK, each followed by 1 us. */
  lemma EmitStart()
    ensures Emit(StartProg()) ==
      [SetLevel(DataPin, Low), Delay(1), SetLevel(ClockPin, Low), Delay(1)]
  {
    EmitAppend([StartProg()[0]], [StartProg()[1]]);
    assert StartProg() == [StartProg()[0]] + [StartProg()[1]];
  }

  /** send_end's last DATA rise happens while CLOCK is high: the stop condition. */
  lemma EmitEnd()
    ensures Emit(EndProg()) ==
      [SetLevel(DataPin, Low), Delay(1), SetLevel(ClockPin, High), Delay(1),
       SetLevel(DataPin, High), Delay(2)]
  {
    var p := EndProg();
    assert p == [p[0]] + ([p[1]] + [p[2]]);
    EmitAppend([p[1]], [p[2]]);
    EmitAppend([p[0]], [p[1]] + [p[2]]);
  }

  /** Per-bit ordering: set DATA, 1 us, CLOCK high, 2 us, CLOCK low, 1 us. */
  lemma EmitBit(v: bv8, i: nat)
    requires i < 8
    ensures Emit(BitProg(v, i)) == BitEvents(v, i)
  {
    var p := BitProg(v, i);
    assert p == [p[0]] + ([p[1]] + [p[2]]);
    EmitAppend([p[1]], [p[2]]);
    EmitAppend([p[0]], [p[1]] + [p[2]]);
  }

  /** The events of bits i .. 7: six per bit, bit i first. */
  lemma {:induction false} EmitBitsFrom(v: bv8, i: nat)
    requires i <= 8
    ensures |Emit(BitsFrom(v, i))| == 6 * (8 - i)
    ensures forall k :: i <= k < 8 ==>
      Emit(BitsFrom(v, i))[6 * (k - i) .. 6 * (k - i) + 6] == BitEvents(v, k)
    decreases 8 - i
  {
    if i < 8 {
      EmitBitsFrom(v, i + 1);
      EmitBit(v, i);
      EmitAppend(BitProg(v, i), BitsFrom(v, i + 1));
      var rest := Emit(BitsFrom(v, i + 1));
      var b := BitEvents(v, i);
      var all := b + rest;
      forall k | i < k < 8
        ensures all[6 * (k - i) .. 6 * (k - i) + 6] == BitEvents(v, k)
      {
        SliceAfter(b, rest, 6 * (k - i - 1), 6 * (k - i - 1) + 6);
      }
      TakeAppend(b, rest);
    }
  }

  lemma SliceAfter<T>(a: seq<T>, b: seq<T>, x: nat, y: nat)
    requires x <= y <= |b|
    ensures (a + b)[|a| + x .. |a| + y] == b[x .. y]
  {
  }

  /** send_byte emits 48 events: the eight bits, least significant first, each as set DATA,
      1 us, CLOCK high, 2 us, CLOCK low, 1 us; CLOCK is left low. */
  lemma EmitByte(v: bv8)
    ensures |Emit(ByteProg(v))| == 48
    ensures forall k :: 0 <= k < 8 ==> Emit(ByteProg(v))[6 * k .. 6 * k + 6] == BitEvents(v, k)
    ensures Emit(ByteProg(v))[46] == SetLevel(ClockPin, Low)
  {
    EmitBitsFrom(v, 0);
    assert Emit(ByteProg(v))[42 .. 48] == BitEvents(v, 7);
  }

  /** Bit order: with the clock low beforehand, bits i .. 7 put exactly one rising CLOCK
      edge each on the bus, and at the k-th the DATA line carries bit i + k of v. */
  lemma {:induction false} SampledBitsFrom(v: bv8, i: nat, l: Lines)
    requires i <= 8 && l.clk == Low
    ensures |SampledData(Emit(BitsFrom(v, i)), l)| == 8 - i
    ensures forall k :: 0 <= k < 8 - i ==>
      SampledData(Emit(BitsFrom(v, i)), l)[k] == Bit(v, i + k)
    ensures LinesAfter(Emit(BitsFrom(v, i)), l).clk == Low
    decreases 8 - i
  {
    if i < 8 {
      var b := BitEvents(v, i);
      var rest := Emit(BitsFrom(v, i + 1));
      EmitBit(v, i);
      EmitAppend(BitProg(v, i), BitsFrom(v, i + 1));
      SampledAppend(b, rest, l);
      SampledBit(v, i, l);
      var l' := Lines(Low, Bit(v, i));
      SampledBitsFrom(v, i + 1, l');
      var s' := SampledData(rest, l');
      assert Emit(BitsFrom(v, i)) == b + rest;
      assert SampledData(b + rest, l) == [Bit(v, i)] + s';
      forall k | 0 < k < 8 - i
        ensures ([Bit(v, i)] + s')[k] == Bit(v, i + k)
      {
        assert ([Bit(v, i)] + s')[k] == s'[k - 1];
      }
    }
  }

  /** Bit order of send_byte: eight rising CLOCK edges, at the k-th of which DATA carries
      (v >> k) & 1. */
  lemma SentLsbFirst(v: bv8, l: Lines)
    requires l.clk == Low
    ensures SampledData(Emit(ByteProg(v)), l) == LsbFirst(v, 8)
  {
    SampledBitsFrom(v, 0, l);
    forall k | 0 <= k < 8
      ensures SampledData(Emit(ByteProg(v)), l)[k] == LsbFirst(v, 8)[k]
    {
      LsbFirstAt(v, 8, k);
    }
  }

  /** With SentLsbFirst: send_byte(0x01) puts a high bit and then seven low bits on DATA. */
  lemma {:induction false} OneLsbFirst()
    ensures LsbFirst(0x01, 8) == [High, Low, Low, Low, Low, Low, Low, Low]
  {
    assert LsbFirst(0x00, 1) == [Low];
    assert LsbFirst(0x00, 2) == [Low, Low];
    assert LsbFirst(0x00, 4) == [Low, Low] + [Low, Low];
    assert LsbFirst(0x00, 7) == [Low, Low, Low] + LsbFirst(0x00, 4);
  }

  /** send_start raises no CLOCK edge and leaves both lines low, whatever they were. */
  lemma StartOnBus(l: Lines)
    ensures SampledData(Emit(StartProg()), l) == []
    ensures LinesAfter(Emit(StartProg()), l) == Lines(Low, Low)
  {
    EmitStart();
    var e := Emit(StartProg());
    var l1, l2 := l.(data := Low), Lines(Low, Low);
    assert e == [e[0]] + ([e[1]] + ([e[2]] + [e[3]]));
    SampledCons(e[3], [], l2);
    SampledCons(e[2], [e[3]], l1);
    SampledCons(e[1], [e[2]] + [e[3]], l1);
    SampledCons(e[0], [e[1]] + ([e[2]] + [e[3]]), l);
  }

  /** send_end, with CLOCK low beforehand, raises CLOCK once while DATA is low, then raises
      DATA with CLOCK high (the stop condition) and leaves both lines high. */
  lemma EndOnBus(l: Lines)
    requires l.clk == Low
    ensures SampledData(Emit(EndProg()), l) == [Low]
    ensures LinesAfter(Emit(EndProg()), l) == Lines(High, High)
  {
    EmitEnd();
    var e := Emit(EndProg());
    var l1, l3, l5 := Lines(Low, Low), Lines(High, Low), Lines(High, High);
    assert e == [e[0]] + ([e[1]] + ([e[2]] + ([e[3]] + ([e[4]] + [e[5]]))));
    SampledCons(e[5], [], l5);
    SampledCons(e[4], [e[5]], l3);
    SampledCons(e[3], [e[4]] + [e[5]], l3);
    SampledCons(e[2], [e[3]] + ([e[4]] + [e[5]]), l1);
    SampledCons(e[1], [e[2]] + ([e[3]] + ([e[4]] + [e[5]])), l1);
    SampledCons(e[0], [e[1]] + ([e[2]] + ([e[3]] + ([e[4]] + [e[5]]))), l);
  }

  /** The DATA levels sampled for bytes bs[i], bs[i + 1], ..., each least significant
      bit first. */
  function WireBits(bs: seq<bv8>, i: nat): (bits: seq<Level>)
    requires i <= |bs|
    ensures |bits| == 8 * (|bs| - i)
    decreases |bs| - i
  {
    if i == |bs| then [] else LsbFirst(bs[i], 8) + WireBits(bs, i + 1)
  }

  lemma {:induction false} WireBitsShift(b: bv8, bs: seq<bv8>, i: nat)
    requires i <= |bs|
    ensures WireBits([b] + bs, i + 1) == WireBits(bs, i)
    decreases |bs| - i
  {
    if i < |bs| {
      assert ([b] + bs)[i + 1] == bs[i];
      WireBitsShift(b, bs, i + 1);
    }
  }

  /** Bytes bs[i..] sent one after the other, with CLOCK low beforehand, put their bits on
      the bus in order, each byte least significant bit first, and leave CLOCK low. */
  lemma {:induction false} SampledBytesFrom(bs: seq<bv8>, i: nat, l: Lines)
    requires i <= |bs| && l.clk == Low
    ensures SampledData(Emit(BytesFrom(bs, i)), l) == WireBits(bs, i)
    ensures LinesAfter(Emit(BytesFrom(bs, i)), l).clk == Low
    decreases |bs| - i
  {
    if i < |bs| {
      var b, rest := Emit(ByteProg(bs[i])), Emit(BytesFrom(bs, i + 1));
      EmitAppend(ByteProg(bs[i]), BytesFrom(bs, i + 1));
      SampledAppend(b, rest, l);
      SentLsbFirst(bs[i], l);
      SampledBitsFrom(bs[i], 0, l);
      SampledBytesFrom(bs, i + 1, LinesAfter(b, l));
    }
  }

  /** On the bus, one transaction carrying bs gives the bits of bs in order, each byte least
      significant bit first, then the stop condition's CLOCK rise with DATA low; it leaves
      both lines high, whatever they were before. */
  lemma TransactionOnBus(bs: seq<bv8>, l: Lines)
    ensures SampledData(Emit(TransactionProg(bs)), l) == WireBits(bs, 0) + [Low]
    ensures LinesAfter(Emit(TransactionProg(bs)), l) == Lines(High, High)
  {
    var s, b, e := Emit(StartProg()), Emit(BytesProg(bs)), Emit(EndProg());
    EmitAppend(StartProg(), BytesProg(bs));
    EmitAppend(StartProg() + BytesProg(bs), EndProg());
    StartOnBus(l);
    SampledBytesFrom(bs, 0, LinesAfter(s, l));
    EndOnBus(LinesAfter(b, LinesAfter(s, l)));
    Framed(s, b, e, l, WireBits(bs, 0));
  }

  /** A start that samples nothing, a body that samples w and leaves CLOCK low, and an end,
      one after the other. */
  lemma Framed(s: seq<Event>, b: seq<Event>, e: seq<Event>, l: Lines, w: seq<Level>)
    requires SampledData(s, l) == [] && SampledData(b, LinesAfter(s, l)) == w
    requires SampledData(e, LinesAfter(b, LinesAfter(s, l))) == [Low]
    requires LinesAfter(e, LinesAfter(b, LinesAfter(s, l))) == Lines(High, High)
    ensures SampledData(s + b + e, l) == w + [Low]
    ensures LinesAfter(s + b + e, l) == Lines(High, High)
  {
    SampledAppend(s, b, l);
    SampledAppend(s + b, e, l);
    assert [] + w == w;
  }

  /** send_start's outcome, call by call: it stops at a failing DATA-low write. */
  lemma RunStart(respond: Oracle, m: nat)
    ensures Run(respond, m, StartProg()) ==
      if respond(m) != EspOk then Outcome([SetLevel(DataPin, Low), Delay(1)], respond(m))
      else Outcome([SetLevel(DataPin, Low), Delay(1), SetLevel(ClockPin, Low), Delay(1)],
                   respond(m + 2))
  {
    var p := StartProg();
    assert p == [p[0]] + [p[1]];
    RunCons(respond, m, p[0], [p[1]]);
    RunOne(respond, m + 2, p[1]);
  }

  /** send_end's outcome, call by call. */
  lemma RunEnd(respond: Oracle, m: nat)
    ensures Run(respond, m, EndProg()) ==
      if respond(m) != EspOk then Outcome([SetLevel(DataPin, Low), Delay(1)], respond(m))
      else if respond(m + 2) != EspOk then
        Outcome([SetLevel(DataPin, Low), Delay(1), SetLevel(ClockPin, High), Delay(1)],
                respond(m + 2))
      else Outcome(Emit(EndProg()), respond(m + 4))
  {
    var p := EndProg();
    assert p == [p[0]] + ([p[1]] + [p[2]]);
    RunCons(respond, m, p[0], [p[1]] + [p[2]]);
    RunCons(respond, m + 2, p[1], [p[2]]);
    RunOne(respond, m + 4, p[2]);
    EmitEnd();
  }

  lemma RunLevel(respond: Oracle, m: nat, l: Level, last: bool, rest: seq<Step>)
    ensures Run(respond, m, LevelProg(l, last) + rest) ==
      if respond(m) != EspOk then Outcome(DataEvents(l), respond(m))
      else if respond(m + 2) != EspOk then Outcome(RiseEvents(l), respond(m + 2))
      else if last && respond(m + 4) != EspOk then Outcome(LevelEvents(l), respond(m + 4))
      else Prepend(LevelEvents(l), Run(respond, m + 6, rest))
  {
    var p := LevelProg(l, last);
    var e0, e1, e2 := StepEvents(p[0]), StepEvents(p[1]), StepEvents(p[2]);
    assert p + rest == [p[0]] + ([p[1]] + ([p[2]] + rest));
    RunCons(respond, m, p[0], [p[1]] + ([p[2]] + rest));
    assert DataEvents(l) == e0;
    if respond(m) == EspOk {
      RunCons(respond, m + 2, p[1], [p[2]] + rest);
      assert RiseEvents(l) == e0 + e1;
      if respond(m + 2) == EspOk {
        RunCons(respond, m + 4, p[2], rest);
        assert LevelEvents(l) == (e0 + e1) + e2;
        var r := Run(respond, m + 4, [p[2]] + rest);
        PrependTwice(e0, e1, r);
        if !(last && respond(m + 4) != EspOk) {
          PrependTwice(e0 + e1, e2, Run(respond, m + 6, rest));
        }
      }
    }
  }

  /** One iteration of send_byte's loop, call by call: a failing DATA write or CLOCK-high
      write ends the byte; the CLOCK-low result ends it only for the last bit. */
  lemma RunBit(respond: Oracle, m: nat, v: bv8, i: nat)
    requires i < 8
    ensures var b := Bit(v, i);
      Run(respond, m, BitsFrom(v, i)) ==
        if respond(m) != EspOk then Outcome(DataEvents(b), respond(m))
        else if respond(m + 2) != EspOk then Outcome(RiseEvents(b), respond(m + 2))
        else if i == 7 then Outcome(LevelEvents(b), respond(m + 4))
        else Prepend(LevelEvents(b), Run(respond, m + 6, BitsFrom(v, i + 1)))
  {
    RunLevel(respond, m, Bit(v, i), i == 7, BitsFrom(v, i + 1));
    if i == 7 {
      assert BitsFrom(v, i + 1) == [];
      assert LevelEvents(Bit(v, i)) + [] == LevelEvents(Bit(v, i));
    }
  }

  /** send_byte's loop over the bits of v from bit i on, its first call at trace
      position n, written bit by bit as the C loop runs: a failing DATA or CLOCK-high
      write stops it; the CLOCK-low result counts only for the last bit. */
  function SendBits(respond: Oracle, n: nat, v: bv8, i: nat, last: EspErr): Outcome
    requires i <= 8
    decreases 8 - i
  {
    if i == 8 then Outcome([], last)
    else if respond(n) != EspOk then Outcome(DataEvents(Bit(v, i)), respond(n))
    else if respond(n + 2) != EspOk then Outcome(RiseEvents(Bit(v, i)), respond(n + 2))
    else Prepend(LevelEvents(Bit(v, i)), SendBits(respond, n + 6, v, i + 1, respond(n + 4)))
  }

  /** The loop agrees with the step list of send_byte, whatever status it starts from. */
  lemma {:induction false} SendBitsIsRun(respond: Oracle, n: nat, v: bv8, i: nat, last: EspErr)
    requires i < 8
    ensures SendBits(respond, n, v, i, last) == Run(respond, n, BitsFrom(v, i))
    decreases 8 - i
  {
    RunBit(respond, n, v, i);
    if i < 7 {
      SendBitsIsRun(respond, n + 6, v, i + 1, respond(n + 4));
    } else {
      assert LevelEvents(Bit(v, i)) + [] == LevelEvents(Bit(v, i));
    }
  }
}
