/** The u8g2 bus driver of main/Source/App/M5StackC6LU8g2Driver.swift: two
    callback channels that turn u8x8 messages into calls on the SPI support
    layer, each a total switch that always acknowledges with 1.

    The u8x8 library's message constants are not part of this repository, so
    they are carried symbolically in a `MsgCodes` record; only the three GPIO
    codes 73/74/75 are literal in the driver. A switch is an if-chain in source
    order: the first matching case wins. */
module U8g2Driver {
  import opened Spi

  datatype Option<T> = None | Some(value: T)

  /** The U8X8_MSG_* constants the driver switches on. */
  datatype MsgCodes = MsgCodes(
    byteInit: int, byteSetDc: int, byteStartTransfer: int, byteSend: int, byteEndTransfer: int,
    gpioAndDelayInit: int, delayMilli: int, delay10Micro: int, delay100Nano: int)

  /** U8X8_MSG_GPIO(pin) = 64 + pin, for U8X8_PIN_CS/DC/RESET = 9/10/11 */
  const MsgGpioCs: int := 73
  const MsgGpioDc: int := 74
  const MsgGpioReset: int := 75

  /** As u8x8 defines them: the byte-channel codes differ from each other,
      and the GPIO/delay-channel codes from each other and from 73/74/75. */
  predicate WellFormed(c: MsgCodes)
  {
    && c.byteInit !in {c.byteSetDc, c.byteStartTransfer, c.byteSend, c.byteEndTransfer}
    && c.byteSetDc !in {c.byteStartTransfer, c.byteSend, c.byteEndTransfer}
    && c.byteStartTransfer !in {c.byteSend, c.byteEndTransfer}
    && c.byteSend != c.byteEndTransfer
    && c.gpioAndDelayInit !in {c.delayMilli, c.delay10Micro, c.delay100Nano, MsgGpioCs, MsgGpioDc, MsgGpioReset}
    && c.delayMilli !in {c.delay10Micro, c.delay100Nano, MsgGpioCs, MsgGpioDc, MsgGpioReset}
    && c.delay10Micro !in {c.delay100Nano, MsgGpioCs, MsgGpioDc, MsgGpioReset}
    && c.delay100Nano !in {MsgGpioCs, MsgGpioDc, MsgGpioReset}
  }

  predicate IsByteCode(c: MsgCodes, msg: uint8)
  {
    msg as int in {c.byteInit, c.byteSetDc, c.byteStartTransfer, c.byteSend, c.byteEndTransfer}
  }

  predicate IsGpioCode(c: MsgCodes, msg: uint8)
  {
    msg as int in {c.gpioAndDelayInit, MsgGpioCs, MsgGpioDc, MsgGpioReset, c.delayMilli, c.delay10Micro, c.delay100Nano}
  }

  /** Results that only the hardware decides, for the calls one message makes:
      spi_bus_initialize, spi_bus_add_device, spi_device_polling_transmit. */
  datatype HwReplies = HwReplies(busInitOk: bool, deviceAddOk: bool, transmitOk: bool)

  /** The memory behind a non-null arg_ptr holds at least arg_int bytes. */
  predicate PayloadReadable(argInt: uint8, argPtr: Option<seq<uint8>>)
  {
    argPtr.Some? ==> argInt as int <= |argPtr.value|
  }

  /** Effect of one byte-channel message on the hardware. */
  function ByteStep(c: MsgCodes, s: Hw, msg: uint8, argInt: uint8, argPtr: Option<seq<uint8>>, hw: HwReplies): (r: Hw)
    requires PayloadReadable(argInt, argPtr)
    ensures !IsByteCode(c, msg) ==> r == s
    ensures WellFormed(c) && msg as int == c.byteInit ==> r == Init(s, hw.busInitOk, hw.deviceAddOk).0
    ensures WellFormed(c) && msg as int == c.byteSetDc ==> r == SetDc(s, argInt)
    ensures WellFormed(c) && msg as int == c.byteStartTransfer ==> r == SetCs(s, 0)
    ensures WellFormed(c) && msg as int == c.byteEndTransfer ==> r == SetCs(s, 1)
    // SEND leaves the pins alone and writes data[0..arg_int) when there is
    // something to write and a device handle to write it with
    ensures WellFormed(c) && msg as int == c.byteSend ==>
              && r.(trace := s.trace) == s
              && if argPtr.Some? && argInt > 0 && s.handleReady
                 then r.trace == s.trace + [Transaction(argPtr.value[..argInt], LengthBits(argInt as size_t))]
                 else r.trace == s.trace
    // SEND writes at most one transaction, of arg_int <= 255 bytes, within max_transfer_sz
    ensures r.trace == s.trace || (
              && |r.trace| == |s.trace| + 1
              && r.trace == s.trace + [r.trace[|s.trace|]]
              && r.trace[|s.trace|].Transaction?
              && 0 < |r.trace[|s.trace|].bytes| <= 255 < MaxTransferSize
              && r.trace[|s.trace|].lengthBits as int == 8 * |r.trace[|s.trace|].bytes|)
  {
    if msg as int == c.byteInit then Init(s, hw.busInitOk, hw.deviceAddOk).0
    else if msg as int == c.byteSetDc then SetDc(s, argInt)
    else if msg as int == c.byteStartTransfer then SetCs(s, 0)
    else if msg as int == c.byteSend then
      match argPtr
      case None => s
      case Some(mem) =>
        // tempBuffer: a copy of the first arg_int bytes behind arg_ptr
        var tempBuffer := mem[..argInt];
        assert tempBuffer[..argInt] == tempBuffer;
        WriteData(s, tempBuffer, argInt as size_t, hw.transmitOk).0
    else if msg as int == c.byteEndTransfer then SetCs(s, 1)
    else s
  }

  /** The delay one GPIO/delay message asks for: DELAY_MILLI n asks n ms,
      DELAY_10MICRO n asks 10n us (at most 2550, so the UInt32 product never
      overflows), every other message asks nothing. */
  function DelayRequest(c: MsgCodes, msg: uint8, argInt: uint8): seq<BusEvent>
  {
    var m := msg as int;
    if m in {c.gpioAndDelayInit, MsgGpioCs, MsgGpioDc, MsgGpioReset} then []
    else if m == c.delayMilli then [MsDelay(argInt as uint32)]
    else if m == c.delay10Micro then [UsDelay(10 * argInt as uint32)]
    else []
  }

  /** Effect of one GPIO/delay-channel message on the hardware. */
  function GpioStep(c: MsgCodes, s: Hw, msg: uint8, argInt: uint8): (r: Hw)
    ensures !IsGpioCode(c, msg) ==> r == s
    ensures WellFormed(c) && msg as int == c.gpioAndDelayInit ==> r == GpioInit(s)
    ensures WellFormed(c) && msg as int == MsgGpioCs ==> r == SetCs(s, argInt)
    ensures WellFormed(c) && msg as int == MsgGpioDc ==> r == SetDc(s, argInt)
    ensures WellFormed(c) && msg as int == MsgGpioReset ==> r == SetRst(s, argInt)
    ensures WellFormed(c) && msg as int == c.delay100Nano ==> r == s
    ensures WellFormed(c) && (msg as int == c.delayMilli || msg as int == c.delay10Micro) ==> r.(trace := s.trace) == s
    ensures r.trace == s.trace + DelayRequest(c, msg, argInt)
    ensures Payload(r.trace) == Payload(s.trace)
  {
    if msg as int == c.gpioAndDelayInit then GpioInit(s)
    else if msg as int == MsgGpioCs then SetCs(s, argInt)
    else if msg as int == MsgGpioDc then SetDc(s, argInt)
    else if msg as int == MsgGpioReset then SetRst(s, argInt)
    else if msg as int == c.delayMilli then Delay(s, MsDelay(argInt as uint32))
    else if msg as int == c.delay10Micro then Delay(s, UsDelay(argInt as uint32 * 10))
    else if msg as int == c.delay100Nano then s
    else s
  }

  /** The driver object; `spi` stands for the support layer it calls into. */
  class M5StackC6LU8g2Driver {
    const codes: MsgCodes
    const spi: SpiPort

    constructor (codes: MsgCodes, spi: SpiPort)
      ensures this.codes == codes && this.spi == spi
    {
      this.codes := codes;
      this.spi := spi;
    }

    method OnByte(msg: uint8, argInt: uint8, argPtr: Option<seq<uint8>>, hw: HwReplies) returns (ack: uint8)
      requires PayloadReadable(argInt, argPtr)
      modifies spi
      ensures ack == 1
      ensures spi.State() == ByteStep(codes, old(spi.State()), msg, argInt, argPtr, hw)
    {
      if msg as int == codes.byteInit {
        var _ := spi.SpiInit(hw.busInitOk, hw.deviceAddOk);
        return 1;
      } else if msg as int == codes.byteSetDc {
        spi.SpiSetDc(argInt);
        return 1;
      } else if msg as int == codes.byteStartTransfer {
        spi.SpiSetCs(0);  // CS low: start of transfer
        return 1;
      } else if msg as int == codes.byteSend {
        if argPtr.Some? {
          var data := argPtr.value;
          var tempBuffer: seq<uint8> := seq(argInt as int, _ => 0);
          for i := 0 to argInt as int
            invariant |tempBuffer| == argInt as int
            invariant tempBuffer[..i] == data[..i]
          {
            tempBuffer := tempBuffer[i := data[i]];
          }
          assert tempBuffer == data[..argInt];
          var _ := spi.SpiWriteData(tempBuffer, argInt as size_t, hw.transmitOk);
        }
        return 1;
      } else if msg as int == codes.byteEndTransfer {
        spi.SpiSetCs(1);  // CS high: end of transfer
        return 1;
      } else {
        return 1;
      }
    }

    method OnGpioAndDelay(msg: uint8, argInt: uint8, argPtr: Option<seq<uint8>>) returns (ack: uint8)
      modifies spi
      ensures ack == 1
      ensures spi.State() == GpioStep(codes, old(spi.State()), msg, argInt)
    {
      if msg as int == codes.gpioAndDelayInit {
        spi.SpiGpioInit();
        return 1;
      } else if msg as int == MsgGpioCs {
        spi.SpiSetCs(argInt);
        return 1;
      } else if msg as int == MsgGpioDc {
        spi.SpiSetDc(argInt);
        return 1;
      } else if msg as int == MsgGpioReset {
        spi.SpiSetRst(argInt);
        return 1;
      } else if msg as int == codes.delayMilli {
        spi.DelayMs(argInt as uint32);
        return 1;
      } else if msg as int == codes.delay10Micro {
        spi.DelayUs(argInt as uint32 * 10);
        return 1;
      } else if msg as int == codes.delay100Nano {
        return 1;  // far below any delay the port can time
      } else {
        return 1;
      }
    }
  }

  // ---------------------------------------------------------------------
  // Runs of messages

  /** One call of the byte-channel callback. */
  datatype ByteCall = ByteCall(msg: uint8, argInt: uint8, argPtr: Option<seq<uint8>>, hw: HwReplies)

  predicate CallsReadable(calls: seq<ByteCall>)
  {
    forall i :: 0 <= i < |calls| ==> PayloadReadable(calls[i].argInt, calls[i].argPtr)
  }

  function RunBytes(c: MsgCodes, s: Hw, calls: seq<ByteCall>): Hw
    requires CallsReadable(calls)
    decreases |calls|
  {
    if calls == [] then s
    else RunBytes(c, ByteStep(c, s, calls[0].msg, calls[0].argInt, calls[0].argPtr, calls[0].hw), calls[1..])
  }

  /** The bytes the SEND calls of a run hand to the driver, in call order. */
  function SentBytes(c: MsgCodes, calls: seq<ByteCall>): seq<uint8>
    requires CallsReadable(calls)
  {
    if calls == [] then []
    else
      CallBytes(c, calls[0]) + SentBytes(c, calls[1..])
  }

  /** The trace only grows: nothing ever retracts a transaction or a delay. */
  lemma {:induction false} RunBytesAppendOnly(c: MsgCodes, s: Hw, calls: seq<ByteCall>)
    requires CallsReadable(calls)
    decreases |calls|
    ensures s.trace <= RunBytes(c, s, calls).trace
    ensures s.handleReady ==> RunBytes(c, s, calls).handleReady
  {
    if calls != [] {
      var s' := ByteStep(c, s, calls[0].msg, calls[0].argInt, calls[0].argPtr, calls[0].hw);
      RunBytesAppendOnly(c, s', calls[1..]);
    }
  }

  /** The bytes one SEND call hands to the driver. */
  function CallBytes(c: MsgCodes, k: ByteCall): seq<uint8>
    requires PayloadReadable(k.argInt, k.argPtr)
  {
    if k.msg as int == c.byteSend && k.argPtr.Some? then k.argPtr.value[..k.argInt] else []
  }

  /** One call with the handle set adds exactly its SEND bytes to the payload. */
  lemma StepSendsVerbatim(c: MsgCodes, s: Hw, k: ByteCall)
    requires WellFormed(c) && PayloadReadable(k.argInt, k.argPtr) && s.handleReady
    ensures ByteStep(c, s, k.msg, k.argInt, k.argPtr, k.hw).handleReady
    ensures Payload(ByteStep(c, s, k.msg, k.argInt, k.argPtr, k.hw).trace) == Payload(s.trace) + CallBytes(c, k)
  {
    var s' := ByteStep(c, s, k.msg, k.argInt, k.argPtr, k.hw);
    if k.msg as int == c.byteSend && k.argPtr.Some? && k.argInt > 0 {
      var e := Transaction(k.argPtr.value[..k.argInt], LengthBits(k.argInt as size_t));
      assert k.argPtr.value[..k.argInt][..k.argInt] == k.argPtr.value[..k.argInt];
      assert s'.trace == s.trace + [e];
      PayloadAppend(s.trace, [e]);
      assert Payload([e]) == Payload([]) + e.bytes;
    } else {
      assert s'.trace == s.trace;
    }
  }

  /** Once the device handle is set, every SEND payload reaches the bus
      verbatim, and the bus sees nothing else: the bytes of the new
      transactions are the SEND payloads concatenated in call order. */
  lemma {:induction false} RunBytesSendsVerbatim(c: MsgCodes, s: Hw, calls: seq<ByteCall>)
    requires WellFormed(c) && CallsReadable(calls) && s.handleReady
    ensures Payload(RunBytes(c, s, calls).trace) == Payload(s.trace) + SentBytes(c, calls)
    decreases |calls|
  {
    if calls != [] {
      var k := calls[0];
      var s' := ByteStep(c, s, k.msg, k.argInt, k.argPtr, k.hw);
      StepSendsVerbatim(c, s, k);
      RunBytesSendsVerbatim(c, s', calls[1..]);
      assert SentBytes(c, calls) == CallBytes(c, k) + SentBytes(c, calls[1..]);
    }
  }

  /** The messages u8g2 may send inside one transfer. */
  predicate InTransfer(c: MsgCodes, k: ByteCall)
  {
    k.msg as int == c.byteSend || k.msg as int == c.byteSetDc
  }

  /** Every SEND of the run is issued while chip select is low. */
  predicate SendsWhileSelected(c: MsgCodes, s: Hw, calls: seq<ByteCall>)
    requires CallsReadable(calls)
    decreases |calls|
  {
    calls != [] ==>
      && (calls[0].msg as int == c.byteSend ==> s.cs == 0)
      && SendsWhileSelected(c, ByteStep(c, s, calls[0].msg, calls[0].argInt, calls[0].argPtr, calls[0].hw), calls[1..])
  }

  lemma {:induction false} InTransferKeepsSelected(c: MsgCodes, s: Hw, calls: seq<ByteCall>)
    requires WellFormed(c) && CallsReadable(calls) && s.cs == 0
    requires forall i :: 0 <= i < |calls| ==> InTransfer(c, calls[i])
    ensures SendsWhileSelected(c, s, calls)
    ensures RunBytes(c, s, calls).cs == 0
    decreases |calls|
  {
    if calls != [] {
      var k := calls[0];
      InTransferKeepsSelected(c, ByteStep(c, s, k.msg, k.argInt, k.argPtr, k.hw), calls[1..]);
    }
  }

  /** A bracketed transfer START, (SEND | SET_DC)*, END issues every SEND
      with chip select low and leaves chip select high afterwards. */
  lemma TransferIsBracketed(c: MsgCodes, s: Hw, start: ByteCall, body: seq<ByteCall>, end: ByteCall)
    requires WellFormed(c) && CallsReadable([start] + body + [end])
    requires start.msg as int == c.byteStartTransfer && end.msg as int == c.byteEndTransfer
    requires forall i :: 0 <= i < |body| ==> InTransfer(c, body[i])
    ensures SendsWhileSelected(c, s, [start] + body + [end])
    ensures RunBytes(c, s, [start] + body + [end]).cs == 1
  {
    var calls := [start] + body + [end];
    assert calls[0] == start;
    var s1 := ByteStep(c, s, start.msg, start.argInt, start.argPtr, start.hw);
    assert calls[1..] == body + [end];
    assert CallsReadable(body) by {
      forall i | 0 <= i < |body| ensures PayloadReadable(body[i].argInt, body[i].argPtr) {
        assert body[i] == calls[i + 1];
      }
    }
    InTransferKeepsSelected(c, s1, body);
    SelectedThenEnd(c, s1, body, end);
  }

  lemma {:induction false} SelectedThenEnd(c: MsgCodes, s: Hw, body: seq<ByteCall>, end: ByteCall)
    requires WellFormed(c) && CallsReadable(body + [end]) && CallsReadable(body)
    requires end.msg as int == c.byteEndTransfer
    requires SendsWhileSelected(c, s, body)
    ensures SendsWhileSelected(c, s, body + [end])
    ensures RunBytes(c, s, body + [end]).cs == 1
    decreases |body|
  {
    if body == [] {
      assert body + [end] == [end];
    } else {
      var k := body[0];
      assert (body + [end])[1..] == body[1..] + [end];
      SelectedThenEnd(c, ByteStep(c, s, k.msg, k.argInt, k.argPtr, k.hw), body[1..], end);
    }
  }

  /** One call of the GPIO/delay callback. */
  datatype GpioCall = GpioCall(msg: uint8, argInt: uint8)

  function RunGpio(c: MsgCodes, s: Hw, calls: seq<GpioCall>): Hw
    decreases |calls|
  {
    if calls == [] then s else RunGpio(c, GpioStep(c, s, calls[0].msg, calls[0].argInt), calls[1..])
  }

  /** The delays a run of GPIO/delay calls requests, in call order. */
  function Delays(c: MsgCodes, calls: seq<GpioCall>): seq<BusEvent>
  {
    if calls == [] then [] else DelayRequest(c, calls[0].msg, calls[0].argInt) + Delays(c, calls[1..])
  }

  /** The GPIO/delay channel never transmits: it only appends its delay
      requests, verbatim and in order, to the trace. */
  lemma {:induction false} RunGpioOnlyDelays(c: MsgCodes, s: Hw, calls: seq<GpioCall>)
    ensures RunGpio(c, s, calls).trace == s.trace + Delays(c, calls)
    ensures Payload(RunGpio(c, s, calls).trace) == Payload(s.trace)
    decreases |calls|
  {
    if calls != [] {
      var s' := GpioStep(c, s, calls[0].msg, calls[0].argInt);
      RunGpioOnlyDelays(c, s', calls[1..]);
    }
  }
}
