/** Command encoding of the TM1640 (main/main.c:13-22, 96-141): the data command, the
    address command and the display-control command, and the transactions that
    write_sram and display_brightness put on the bus. */
module Commands {
  import opened Gpio
  import opened Steps
  import opened Framing

  const CommandData: bv8 := 0x40
  const CommandDisplay: bv8 := 0x80
  const CommandAddress: bv8 := 0xc0
  const DataAddressAutoIncrement: bv8 := 0x00
  const DataNormalMode: bv8 := 0x00
  const DisplayOn: bv8 := 0x08
  const DisplayOff: bv8 := 0x00

  /** Size of the display memory, in bytes. */
  const MemorySize: nat := 16

  /** The data command write_sram sends first: command class 01 in the top two bits,
      normal mode (bit 3 clear) and address auto-increment (bit 2 clear). */
  function DataCommand(): (c: bv8)
    ensures c & 0xc0 == 0x40 && c & 0x08 == 0 && c & 0x04 == 0
    ensures c == 0x40
  {
    CommandData | DataNormalMode | DataAddressAutoIncrement
  }

  /** The address command 0xC0 | offset. */
  function AddressCommand(offset: bv8): (c: bv8)
    ensures c & 0xc0 == 0xc0
    ensures offset < 16 ==> 0xc0 <= c <= 0xcf && c & 0x0f == offset
  {
    CommandAddress | offset
  }

  /** display_brightness's clamp: 9 and more are taken as 8. */
  function Clamp(v: bv8): (r: bv8)
    ensures r <= 8
    ensures r == v || (v > 8 && r == 8)
  {
    if v > 8 then 8 else v
  }

  /** The display-control command for brightness v. */
  function BrightnessCommand(v: bv8): (c: bv8)
    ensures c & 0xf0 == 0x80
  {
    var level := Clamp(v);
    if level != 0 then CommandDisplay | DisplayOn | (level - 1)
    else CommandDisplay | DisplayOff
  }

  /** What a display-control command means: 0 for display off, else the step + 1. */
  function BrightnessOf(c: bv8): bv8
  {
    if c & 0x08 == 0 then 0 else (c & 0x07) + 1
  }

  /** write_sram's range check, as written: the size is cast to
      uint8_t first, so the check sees the length modulo 256. */
  predicate InRange(offset: bv8, size: nat)
  {
    offset as int + size % 256 <= MemorySize
  }

  /** The two transactions of a successful write_sram: the data command alone, then the
      address command followed by the payload. */
  function WriteSramProg(buf: seq<bv8>, offset: bv8): seq<Step>
  {
    TransactionProg([DataCommand()]) + TransactionProg([AddressCommand(offset)] + buf)
  }

  /** write_sram(buf, |buf|, offset), its first driver call recorded at position n. */
  function WriteSramSpec(respond: Oracle, n: nat, buf: seq<bv8>, offset: bv8): Outcome
  {
    if !InRange(offset, |buf|) then Outcome([], EspErrInvalidSize)
    else Run(respond, n, WriteSramProg(buf, offset))
  }

  /** The transaction of display_brightness(v). */
  function BrightnessProg(v: bv8): seq<Step>
  {
    TransactionProg([BrightnessCommand(v)])
  }

  /** display_brightness(v), its first driver call recorded at position n. */
  function DisplayBrightnessSpec(respond: Oracle, n: nat, v: bv8): Outcome
  {
    Run(respond, n, BrightnessProg(v))
  }

  /** The events of one framed transaction carrying bs. */
  function TransactionEvents(bs: seq<bv8>): seq<Event>
  {
    Emit(TransactionProg(bs))
  }

  /** write_sram's step list as the C function performs it, one call after the other. */
  lemma WriteSramInOrder(buf: seq<bv8>, offset: bv8)
    ensures WriteSramProg(buf, offset) ==
      StartProg() + (ByteProg(DataCommand()) + (EndProg() +
        (StartProg() + (ByteProg(AddressCommand(offset)) + (BytesProg(buf) + EndProg())))))
  {
    var c, a := DataCommand(), AddressCommand(offset);
    OneByte(c);
    BytesFromShift(a, buf, 0);
    assert BytesProg([a] + buf) == ByteProg(a) + BytesProg(buf);
    var t2 := TransactionProg([a] + buf);
    Regroup3(StartProg(), ByteProg(c), EndProg(), t2);
    Regroup3(StartProg(), ByteProg(a), BytesProg(buf), EndProg());
  }

  lemma OneByte(c: bv8)
    ensures BytesProg([c]) == ByteProg(c)
  {
    assert BytesFrom([c], 1) == [];
    assert ByteProg(c) + [] == ByteProg(c);
  }

  lemma Regroup3(a: seq<Step>, b: seq<Step>, c: seq<Step>, d: seq<Step>)
    ensures (a + b + c) + d == a + (b + (c + d))
    ensures a + (b + c) + d == a + (b + (c + d))
  {
  }

  /** The payload loop of write_sram: byte i, then the rest. */
  lemma PayloadInOrder(buf: seq<bv8>, i: nat)
    requires i < |buf|
    ensures BytesFrom(buf, i) + EndProg() ==
      ByteProg(buf[i]) + (BytesFrom(buf, i + 1) + EndProg())
  {
  }

  lemma PayloadDone(buf: seq<bv8>)
    ensures BytesFrom(buf, |buf|) + EndProg() == EndProg()
  {
  }

  /** display_brightness's step list as the C function performs it. */
  lemma BrightnessInOrder(v: bv8)
    ensures BrightnessProg(v) == StartProg() + (ByteProg(BrightnessCommand(v)) + EndProg())
  {
    OneByte(BrightnessCommand(v));
  }

  /** Brightness 0 turns the display off. */
  lemma BrightnessZeroIsOff()
    ensures BrightnessCommand(0) == 0x80
  {
  }

  /** Brightness 1 .. 8 turns the display on at step v - 1: the codes 0x88 .. 0x8F. */
  lemma BrightnessOnCodes(v: bv8)
    requires 1 <= v <= 8
    ensures BrightnessCommand(v) == 0x88 | (v - 1)
    ensures 0x88 <= BrightnessCommand(v) <= 0x8f
  {
  }

  /** Brightness 8 and above all give the brightest code 0x8F. */
  lemma BrightnessSaturates(v: bv8)
    requires v >= 8
    ensures BrightnessCommand(v) == BrightnessCommand(8) == 0x8f
  {
  }

  /** The command carries the clamped brightness: decoding it gives min(v, 8). */
  lemma BrightnessRoundTrip(v: bv8)
    ensures BrightnessOf(BrightnessCommand(v)) == Clamp(v)
  {
  }

  /** The levels 0 .. 8 map to distinct codes. */
  lemma BrightnessInjective(v: bv8, w: bv8)
    requires v <= 8 && w <= 8
    ensures BrightnessCommand(v) == BrightnessCommand(w) ==> v == w
  {
    BrightnessRoundTrip(v);
    BrightnessRoundTrip(w);
  }

  /** Range error: write_sram fails with ESP_ERR_INVALID_SIZE and emits nothing exactly
      when offset + (size mod 256) exceeds 16. */
  lemma WriteSramRangeError(respond: Oracle, n: nat, buf: seq<bv8>, offset: bv8)
    ensures WriteSramSpec(respond, n, buf, offset) == Outcome([], EspErrInvalidSize)
        <==> offset as int + |buf| % 256 > 16
  {
    if InRange(offset, |buf|) {
      var p := WriteSramProg(buf, offset);
      assert p[0] == StartProg()[0];
      assert Run(respond, n, p).events != [] by {
        assert |StepEvents(p[0])| >= 1;
      }
    }
  }

  /** Offset 15 with three bytes is rejected. */
  lemma WriteSramRejectsOverflow(respond: Oracle, n: nat, a: bv8, b: bv8, c: bv8)
    ensures WriteSramSpec(respond, n, [a, b, c], 15) == Outcome([], EspErrInvalidSize)
  {
    WriteSramRangeError(respond, n, [a, b, c], 15);
  }

  /** Offset 16 with no bytes passes the check and drives the bus. */
  lemma WriteSramAcceptsEmptyAtEnd(respond: Oracle, n: nat)
    ensures WriteSramSpec(respond, n, [], 16).events != []
  {
    WriteSramRangeError(respond, n, [], 16);
  }

  /** The uint8_t cast lets a 256-byte payload at offset 0 through the check: all 256
      bytes are then sent, past the end of the 16-byte display memory. */
  lemma WriteSramSizeWraps(respond: Oracle, n: nat, buf: seq<bv8>)
    requires |buf| == 256
    requires CallsSucceed(respond, n, WriteSramProg(buf, 0))
    ensures WriteSramSpec(respond, n, buf, 0) ==
      Outcome(TransactionEvents([0x40]) + TransactionEvents([0xc0] + buf), EspOk)
  {
    WriteSramSucceeds(respond, n, buf, 0);
  }

  /** Successful write: when every checked driver call succeeds and the range check passes,
      write_sram emits exactly two framed transactions, the data command 0x40 alone, then
      0xC0 | offset followed by the payload in buffer order, and returns success. */
  lemma WriteSramSucceeds(respond: Oracle, n: nat, buf: seq<bv8>, offset: bv8)
    requires InRange(offset, |buf|)
    requires CallsSucceed(respond, n, WriteSramProg(buf, offset))
    ensures WriteSramSpec(respond, n, buf, offset) ==
      Outcome(TransactionEvents([0x40]) + TransactionEvents([0xc0 | offset] + buf), EspOk)
  {
    RunSucceeds(respond, n, WriteSramProg(buf, offset));
    EmitAppend(TransactionProg([DataCommand()]), TransactionProg([AddressCommand(offset)] + buf));
  }

  /** display_brightness emits one framed transaction carrying the command byte. */
  lemma DisplayBrightnessSucceeds(respond: Oracle, n: nat, v: bv8)
    requires CallsSucceed(respond, n, BrightnessProg(v))
    ensures DisplayBrightnessSpec(respond, n, v) ==
      Outcome(TransactionEvents([BrightnessCommand(v)]), EspOk)
  {
    RunSucceeds(respond, n, BrightnessProg(v));
  }

  /** On the bus, a successful write_sram gives the data command's bits, a stop, then the
      address command's bits and the payload's bits in buffer order, and a stop; every byte
      goes least significant bit first. */
  lemma WriteSramOnBus(respond: Oracle, n: nat, buf: seq<bv8>, offset: bv8, l: Lines)
    requires InRange(offset, |buf|)
    requires CallsSucceed(respond, n, WriteSramProg(buf, offset))
    ensures SampledData(WriteSramSpec(respond, n, buf, offset).events, l) ==
      (LsbFirst(0x40, 8) + [Low]) + (LsbFirst(0xc0 | offset, 8) + WireBits(buf, 0) + [Low])
  {
    WriteSramSucceeds(respond, n, buf, offset);
    TwoTransactionsOnBus(0x40, 0xc0 | offset, buf, l);
  }

  lemma TwoTransactionsOnBus(c: bv8, a: bv8, buf: seq<bv8>, l: Lines)
    ensures SampledData(TransactionEvents([c]) + TransactionEvents([a] + buf), l) ==
      (LsbFirst(c, 8) + [Low]) + (LsbFirst(a, 8) + WireBits(buf, 0) + [Low])
  {
    var t1, t2 := TransactionEvents([c]), TransactionEvents([a] + buf);
    SampledAppend(t1, t2, l);
    OneTransactionOnBus(c, l);
    TransactionOnBus([a] + buf, LinesAfter(t1, l));
    WireBitsShift(a, buf, 0);
  }

  lemma OneTransactionOnBus(c: bv8, l: Lines)
    ensures SampledData(TransactionEvents([c]), l) == LsbFirst(c, 8) + [Low]
  {
    TransactionOnBus([c], l);
    assert WireBits([c], 1) == [];
    assert LsbFirst(c, 8) + [] == LsbFirst(c, 8);
  }

  /** On the bus, a successful display_brightness gives the command byte's bits, least
      significant first, and a stop. */
  lemma DisplayBrightnessOnBus(respond: Oracle, n: nat, v: bv8, l: Lines)
    requires CallsSucceed(respond, n, BrightnessProg(v))
    ensures SampledData(DisplayBrightnessSpec(respond, n, v).events, l) ==
      LsbFirst(BrightnessCommand(v), 8) + [Low]
  {
    DisplayBrightnessSucceeds(respond, n, v);
    OneTransactionOnBus(BrightnessCommand(v), l);
  }
}
