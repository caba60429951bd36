/** The driver as the C code runs it (main/main.c:53-162): each function issues its GPIO
    calls and delays one after another and keeps a `ret` status. The object records every
    call and delay in `trace`; each method is proved to append exactly what the step list
    of its function emits under Steps.Run, and to return what Run returns. */
module Driver {
  import opened Gpio
  import opened Steps
  import opened Framing
  import opened Commands
  import opened Session

  class Tm1640 {
    /** The GPIO driver's answers: the call recorded at trace position j returns respond(j). */
    const respond: Oracle
    /** Every GPIO call and delay issued so far, in order. */
    var trace: seq<Event>

    constructor (respond: Oracle)
      ensures this.respond == respond && trace == []
    {
      this.respond := respond;
      trace := [];
    }

    /** gpio_set_level. */
    method GpioSetLevel(pin: Pin, level: Level) returns (err: EspErr)
      modifies this
      ensures trace == old(trace) + [SetLevel(pin, level)]
      ensures err == respond(|old(trace)|)
    {
      err := respond(|trace|);
      trace := trace + [SetLevel(pin, level)];
    }

    /** gpio_set_direction(pin, GPIO_MODE_OUTPUT). */
    method GpioSetOutput(pin: Pin) returns (err: EspErr)
      modifies this
      ensures trace == old(trace) + [SetOutput(pin)]
      ensures err == respond(|old(trace)|)
    {
      err := respond(|trace|);
      trace := trace + [SetOutput(pin)];
    }

    /** gpio_pullup_en. */
    method GpioPullUp(pin: Pin) returns (err: EspErr)
      modifies this
      ensures trace == old(trace) + [PullUp(pin)]
      ensures err == respond(|old(trace)|)
    {
      err := respond(|trace|);
      trace := trace + [PullUp(pin)];
    }

    /** delay_microseconds: recorded, never fails. */
    method DelayMicroseconds(usec: nat)
      modifies this
      ensures trace == old(trace) + [Delay(usec)]
    {
      trace := trace + [Delay(usec)];
    }

    /** send_start. */
    method SendStart() returns (ret: EspErr)
      modifies this
      ensures var r := Run(respond, |old(trace)|, StartProg());
        trace == old(trace) + r.events && ret == r.ret
    {
      RunStart(respond, |trace|);
      ret := GpioSetLevel(DataPin, Low);
      DelayMicroseconds(1);
      if ret != EspOk { return; }
      ret := GpioSetLevel(ClockPin, Low);
      DelayMicroseconds(1);
    }

    /** send_byte: eight bits, least significant first. */
    method SendByte(v: bv8) returns (ret: EspErr)
      modifies this
      ensures var r := SendBits(respond, |old(trace)|, v, 0, EspOk);
        trace == old(trace) + r.events && ret == r.ret
    {
      ghost var t0 := trace;
      ghost var done: seq<Event> := [];
      ret := EspOk;
      var i := 0;
      while i < 8
        invariant 0 <= i <= 8
        invariant trace == t0 + done
        invariant Sending(respond, t0, done, v, i, ret)
      {
        ghost var last, atData := ret, trace;
        var currentBit := Bit(v, i);

        ret := GpioSetLevel(DataPin, currentBit);
        DelayMicroseconds(1);
        if ret != EspOk {
          StopsAtData(respond, t0, done, v, i, last, atData, trace);
          return;
        }

        ghost var atRise := trace;
        ret := GpioSetLevel(ClockPin, High);
        DelayMicroseconds(2);
        if ret != EspOk {
          StopsAtRise(respond, t0, done, v, i, last, atData, atRise, trace);
          return;
        }

        ghost var atFall := trace;
        ret := GpioSetLevel(ClockPin, Low);
        DelayMicroseconds(1);
        BitSent(respond, t0, done, v, i, last, atData, atRise, atFall, trace, ret);
        done := done + LevelEvents(currentBit);
        i := i + 1;
      }
      assert done + [] == done;
    }

    /** send_end: the final DATA rise while CLOCK is high is the stop condition. */
    method SendEnd() returns (ret: EspErr)
      modifies this
      ensures var r := Run(respond, |old(trace)|, EndProg());
        trace == old(trace) + r.events && ret == r.ret
    {
      RunEnd(respond, |trace|);
      EmitEnd();
      ret := GpioSetLevel(DataPin, Low);
      DelayMicroseconds(1);
      if ret != EspOk { return; }

      ret := GpioSetLevel(ClockPin, High);
      DelayMicroseconds(1);
      if ret != EspOk { return; }

      ret := GpioSetLevel(DataPin, High);
      DelayMicroseconds(2);
    }

    /** write_sram(buf, size, offset): the range check, then the data-command transaction,
        then the address command and the first `size` bytes of buf in one transaction. */
    method WriteSram(buf: array<bv8>, size: nat, offset: bv8) returns (ret: EspErr)
      requires size <= buf.Length
      modifies this
      ensures var r := WriteSramSpec(respond, |old(trace)|, buf[..size], offset);
        trace == old(trace) + r.events && ret == r.ret
    {
      if offset as int + size % 256 > 16 {
        return EspErrInvalidSize;
      }
      ghost var t0, payload := trace, buf[..size];
      ghost var address := AddressCommand(offset);
      ghost var w := Run(respond, |t0|, WriteSramProg(payload, offset));
      WriteSramInOrder(payload, offset);
      ghost var d: seq<Event> := [];
      assert t0 + d == t0;

      var command := CommandData | DataNormalMode | DataAddressAutoIncrement;
      ghost var rest := ByteProg(command) + (EndProg() + (StartProg() +
                          (ByteProg(address) + (BytesProg(payload) + EndProg()))));
      ret := SendStart();
      d := Continue(respond, w, t0, d, trace, StartProg(), rest, ret);
      if ret != EspOk { return; }

      rest := EndProg() + (StartProg() + (ByteProg(address) + (BytesProg(payload) + EndProg())));
      ret := SendByte(command);
      SendBitsIsRun(respond, |t0 + d|, command, 0, EspOk);
      d := Continue(respond, w, t0, d, trace, ByteProg(command), rest, ret);
      if ret != EspOk { return; }

      rest := StartProg() + (ByteProg(address) + (BytesProg(payload) + EndProg()));
      ret := SendEnd();
      d := Continue(respond, w, t0, d, trace, EndProg(), rest, ret);
      if ret != EspOk { return; }

      rest := ByteProg(address) + (BytesProg(payload) + EndProg());
      ret := SendStart();
      d := Continue(respond, w, t0, d, trace, StartProg(), rest, ret);
      if ret != EspOk { return; }

      command := CommandAddress | offset;
      rest := BytesProg(payload) + EndProg();
      ret := SendByte(command);
      SendBitsIsRun(respond, |t0 + d|, command, 0, EspOk);
      d := Continue(respond, w, t0, d, trace, ByteProg(command), rest, ret);
      if ret != EspOk { return; }

      ret := SendPayload(buf, size);
      Conclude(respond, w, t0, d, trace, BytesProg(payload) + EndProg(), ret);
    }

    /** The tail of write_sram: send_byte for each of the first `size` bytes of buf, in
        order, stopping at the first failure, then send_end. */
    method SendPayload(buf: array<bv8>, size: nat) returns (ret: EspErr)
      requires size <= buf.Length
      modifies this
      ensures var r := Run(respond, |old(trace)|, BytesProg(buf[..size]) + EndProg());
        trace == old(trace) + r.events && ret == r.ret
    {
      ghost var t0, payload := trace, buf[..size];
      ghost var w := Run(respond, |t0|, BytesFrom(payload, 0) + EndProg());
      ghost var d: seq<Event> := [];
      assert t0 + d == t0;
      var i := 0;
      while i < size
        invariant 0 <= i <= size
        invariant trace == t0 + d
        invariant w == Prepend(d, Run(respond, |trace|, BytesFrom(payload, i) + EndProg()))
      {
        PayloadInOrder(payload, i);
        ret := SendByte(buf[i]);
        SendBitsIsRun(respond, |t0 + d|, payload[i], 0, EspOk);
        d := Continue(respond, w, t0, d, trace, ByteProg(payload[i]), BytesFrom(payload, i + 1) + EndProg(), ret);
        if ret != EspOk { return; }
        i := i + 1;
      }
      PayloadDone(payload);
      ret := SendEnd();
      Conclude(respond, w, t0, d, trace, EndProg(), ret);
    }

    /** display_brightness(value): one transaction carrying the display-control command. */
    method DisplayBrightness(value: bv8) returns (ret: EspErr)
      modifies this
      ensures var r := DisplayBrightnessSpec(respond, |old(trace)|, value);
        trace == old(trace) + r.events && ret == r.ret
    {
      var level := if value > 8 then 8 else value;
      var command := if level != 0 then CommandDisplay | DisplayOn | (level - 1)
                     else CommandDisplay | DisplayOff;
      ghost var t0 := trace;
      ghost var w := Run(respond, |t0|, BrightnessProg(value));
      assert command == BrightnessCommand(value);
      BrightnessInOrder(value);
      ghost var d: seq<Event> := [];
      assert t0 + d == t0;

      ret := SendStart();
      d := Continue(respond, w, t0, d, trace, StartProg(), ByteProg(command) + EndProg(), ret);
      if ret != EspOk { return; }

      ret := SendByte(command);
      SendBitsIsRun(respond, |t0 + d|, command, 0, EspOk);
      d := Continue(respond, w, t0, d, trace, ByteProg(command), EndProg(), ret);
      if ret != EspOk { return; }

      ret := SendEnd();
      Conclude(respond, w, t0, d, trace, EndProg(), ret);
    }

    /** tm1640_init(clockPin, dataPin). */
    method Initialize(clockPin: Pin, dataPin: Pin) returns (ret: EspErr)
      modifies this
      ensures var r := InitSpec(respond, |old(trace)|, clockPin, dataPin);
        trace == old(trace) + r.events && ret == r.ret
    {
      ghost var t0 := trace;
      ghost var w := Run(respond, |t0|, InitProg(clockPin, dataPin));
      ghost var d: seq<Event> := [];
      assert t0 + d == t0;
      ghost var s0, s1, s2, s3, s4, s5 := Checked(SetOutput(clockPin)), Checked(PullUp(clockPin)),
        Checked(SetLevel(ClockPin, High)), Checked(SetOutput(DataPin)), Checked(PullUp(DataPin)),
        Checked(SetLevel(DataPin, High));
      InitInOrder(clockPin, dataPin);

      ret := GpioSetOutput(clockPin);
      Call(respond, w, t0, d, trace, s0, [s1] + ([s2] + ([s3] + ([s4] + [s5]))), ret);
      if ret != EspOk { return; }
      d := d + [s0.call];

      ret := GpioPullUp(clockPin);
      Call(respond, w, t0, d, trace, s1, [s2] + ([s3] + ([s4] + [s5])), ret);
      if ret != EspOk { return; }
      d := d + [s1.call];

      ret := GpioSetLevel(ClockPin, High);
      Call(respond, w, t0, d, trace, s2, [s3] + ([s4] + [s5]), ret);
      if ret != EspOk { return; }
      d := d + [s2.call];

      ret := GpioSetOutput(DataPin);
      Call(respond, w, t0, d, trace, s3, [s4] + [s5], ret);
      if ret != EspOk { return; }
      d := d + [s3.call];

      ret := GpioPullUp(DataPin);
      Call(respond, w, t0, d, trace, s4, [s5], ret);
      if ret != EspOk { return; }
      d := d + [s4.call];

      ret := GpioSetLevel(DataPin, High);
      CallLast(respond, w, t0, d, trace, s5, ret);
    }
  }

  /** send_byte's loop after the events d: what is left of the loop, prefixed with d,
      is the whole byte. */
  ghost predicate Sending(respond: Oracle, t0: seq<Event>, d: seq<Event>, v: bv8, i: nat, last: EspErr)
    requires i <= 8
  {
    SendBits(respond, |t0|, v, 0, EspOk) == Prepend(d, SendBits(respond, |t0 + d|, v, i, last))
  }

  /** A failing DATA write ends the loop: send_byte returns its error. The bit started
      with the trace s. */
  lemma StopsAtData(respond: Oracle, t0: seq<Event>, d: seq<Event>, v: bv8, i: nat,
                    last: EspErr, s: seq<Event>, t: seq<Event>)
    requires i < 8 && Sending(respond, t0, d, v, i, last) && s == t0 + d
    requires respond(|s|) != EspOk
    requires t == s + [SetLevel(DataPin, Bit(v, i))] + [Delay(1)]
    ensures var w := SendBits(respond, |t0|, v, 0, EspOk);
      t == t0 + w.events && w.ret == respond(|s|)
  {
    var n := |s|;
    assert SendBits(respond, n, v, i, last) == Outcome(DataEvents(Bit(v, i)), respond(n));
    Regroup(t0, d, Bit(v, i), t);
  }

  /** A failing CLOCK-high write, made with the trace u, ends the loop. */
  lemma StopsAtRise(respond: Oracle, t0: seq<Event>, d: seq<Event>, v: bv8, i: nat,
                    last: EspErr, s: seq<Event>, u: seq<Event>, t: seq<Event>)
    requires i < 8 && Sending(respond, t0, d, v, i, last) && s == t0 + d
    requires respond(|s|) == EspOk
    requires u == s + [SetLevel(DataPin, Bit(v, i))] + [Delay(1)]
    requires respond(|u|) != EspOk
    requires t == u + [SetLevel(ClockPin, High)] + [Delay(2)]
    ensures var w := SendBits(respond, |t0|, v, 0, EspOk);
      t == t0 + w.events && w.ret == respond(|u|)
  {
    var n := |s|;
    assert |u| == n + 2;
    assert SendBits(respond, n, v, i, last) == Outcome(RiseEvents(Bit(v, i)), respond(n + 2));
    Regroup(t0, d, Bit(v, i), t);
  }

  /** A bit that got through its CLOCK-high write is sent whole; the result of the
      CLOCK-low write, made with the trace f, becomes the status the loop carries into the
      next bit, or returns after the last one. */
  lemma BitSent(respond: Oracle, t0: seq<Event>, d: seq<Event>, v: bv8, i: nat,
                last: EspErr, s: seq<Event>, u: seq<Event>, f: seq<Event>, t: seq<Event>,
                ret: EspErr)
    requires i < 8 && Sending(respond, t0, d, v, i, last) && s == t0 + d
    requires respond(|s|) == EspOk
    requires u == s + [SetLevel(DataPin, Bit(v, i))] + [Delay(1)]
    requires respond(|u|) == EspOk
    requires f == u + [SetLevel(ClockPin, High)] + [Delay(2)]
    requires ret == respond(|f|)
    requires t == f + [SetLevel(ClockPin, Low)] + [Delay(1)]
    ensures t == t0 + (d + LevelEvents(Bit(v, i)))
    ensures Sending(respond, t0, d + LevelEvents(Bit(v, i)), v, i + 1, ret)
  {
    var n := |s|;
    assert |u| == n + 2 && |f| == n + 4;
    var e := LevelEvents(Bit(v, i));
    Regroup(t0, d, Bit(v, i), t);
    var r := SendBits(respond, n + 6, v, i + 1, ret);
    assert SendBits(respond, n, v, i, last) == Prepend(e, r);
    PrependTwice(d, e, r);
  }

  /** The trace after each stage of one bit, regrouped as what came before plus the
      events of the bit so far. */
  lemma Regroup(t0: seq<Event>, d: seq<Event>, l: Level, t: seq<Event>)
    ensures t == t0 + d + [SetLevel(DataPin, l)] + [Delay(1)] ==>
      t == t0 + (d + DataEvents(l))
    ensures t == t0 + d + [SetLevel(DataPin, l)] + [Delay(1)]
                 + [SetLevel(ClockPin, High)] + [Delay(2)] ==>
      t == t0 + (d + RiseEvents(l))
    ensures t == t0 + d + [SetLevel(DataPin, l)] + [Delay(1)]
                 + [SetLevel(ClockPin, High)] + [Delay(2)]
                 + [SetLevel(ClockPin, Low)] + [Delay(1)] ==>
      t == t0 + (d + LevelEvents(l)) && |t| == |t0 + d| + 6
  {
  }
}
