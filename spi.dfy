/** The SPI/GPIO support layer of the display (main/Source/Support/src/spi.c,
    plus delay_ms from rtos_utils.c that spi.h declares).

    The ESP-IDF calls behind it are not modelled; what remains is the state the
    layer owns or drives: the three control pins, whether the module-global
    device handle is set, and an append-only trace of the bus transactions and
    delays that were requested. Outcomes that only the hardware decides (bus
    initialisation, device add, transmit) are parameters. */
module Spi {

  newtype uint8 = x: int | 0 <= x < 0x100
  newtype uint32 = x: int | 0 <= x < 0x1_0000_0000

  /** size_t on the 32-bit ESP32-C6 */
  type size_t = uint32

  /** max_transfer_sz of the bus configuration */
  const MaxTransferSize: nat := 1024

  /** What the bus saw, in order. */
  datatype BusEvent =
    | Transaction(bytes: seq<uint8>, lengthBits: uint32)  // one spi_device_polling_transmit
    | MsDelay(ms: uint32)                                   // delay_ms
    | UsDelay(us: uint32)                                   // delay_us

  /** Abstract value of the hardware: pin levels as last passed to
      gpio_set_level, whether spi_handle is set, and the bus trace. */
  datatype Hw = Hw(cs: uint8, dc: uint8, rst: uint8, handleReady: bool, trace: seq<BusEvent>)

  /** The concatenation of the bytes of every transaction in a trace. */
  function Payload(t: seq<BusEvent>): seq<uint8>
  {
    if t == [] then []
    else Payload(t[..|t| - 1]) + (if t[|t| - 1].Transaction? then t[|t| - 1].bytes else [])
  }

  lemma {:induction false} PayloadAppend(a: seq<BusEvent>, b: seq<BusEvent>)
    ensures Payload(a + b) == Payload(a) + Payload(b)
    decreases |b|
  {
    if b == [] {
      assert a + b == a;
    } else {
      var b' := b[..|b| - 1];
      assert (a + b)[..|a + b| - 1] == a + b';
      PayloadAppend(a, b');
    }
  }

  /** The transmit length in bits, computed in size_t as `data_len * 8`. */
  function LengthBits(dataLen: size_t): (bits: uint32)
    ensures dataLen as int <= MaxTransferSize ==> bits as int == 8 * dataLen as int
  {
    ((dataLen as int * 8) % 0x1_0000_0000) as uint32
  }

  /** spi_init: the handle becomes set only when both the bus initialisation
      and the device add succeed; the pins and the trace are untouched. */
  function Init(s: Hw, busOk: bool, addOk: bool): (r: (Hw, bool))
    ensures r.1 <==> busOk && addOk
    ensures r.0.handleReady <==> s.handleReady || (busOk && addOk)
    ensures r.0.(handleReady := s.handleReady) == s
  {
    if !busOk then (s, false)
    else if !addOk then (s, false)
    else (s.(handleReady := true), true)
  }

  /** spi_write_data: refused (false, nothing written) without a handle or
      with data_len == 0; otherwise exactly one transaction carrying the
      first data_len bytes of the caller's buffer, unchanged. */
  function WriteData(s: Hw, data: seq<uint8>, dataLen: size_t, transmitOk: bool): (r: (Hw, bool))
    requires dataLen as int <= |data|
    ensures !s.handleReady || dataLen == 0 ==> r == (s, false)
    ensures s.handleReady && dataLen > 0 ==>
              && r.0.(trace := s.trace) == s
              && r.0.trace == s.trace + [Transaction(data[..dataLen], LengthBits(dataLen))]
              && r.1 == transmitOk
  {
    if !s.handleReady || dataLen == 0 then (s, false)
    else (s.(trace := s.trace + [Transaction(data[..dataLen], LengthBits(dataLen))]), transmitOk)
  }

  /** spi_gpio_init: all three lines idle high; nothing else changes. */
  function GpioInit(s: Hw): (r: Hw)
    ensures r.cs == 1 && r.dc == 1 && r.rst == 1
    ensures r.handleReady == s.handleReady && r.trace == s.trace
  {
    s.(cs := 1, dc := 1, rst := 1)
  }

  function SetCs(s: Hw, level: uint8): (r: Hw)
    ensures r.cs == level && r.dc == s.dc && r.rst == s.rst
    ensures r.handleReady == s.handleReady && r.trace == s.trace
  {
    s.(cs := level)
  }

  function SetDc(s: Hw, level: uint8): (r: Hw)
    ensures r.dc == level && r.cs == s.cs && r.rst == s.rst
    ensures r.handleReady == s.handleReady && r.trace == s.trace
  {
    s.(dc := level)
  }

  function SetRst(s: Hw, level: uint8): (r: Hw)
    ensures r.rst == level && r.cs == s.cs && r.dc == s.dc
    ensures r.handleReady == s.handleReady && r.trace == s.trace
  {
    s.(rst := level)
  }

  /** delay_us / delay_ms: one request of exactly the given duration. */
  function Delay(s: Hw, e: BusEvent): (r: Hw)
    requires !e.Transaction?
    ensures r.trace == s.trace + [e] && Payload(r.trace) == Payload(s.trace)
    ensures r.(trace := s.trace) == s
  {
    PayloadAppend(s.trace, [e]);
    assert Payload([e]) == Payload([]) + [];
    s.(trace := s.trace + [e])
  }

  /** The hardware the support layer drives; `spi_handle` is the module-global
      device handle of spi.c, here only whether it is set. */
  class SpiPort {
    var cs: uint8
    var dc: uint8
    var rst: uint8
    var handleReady: bool
    var trace: seq<BusEvent>

    function State(): Hw
      reads this
    {
      Hw(cs, dc, rst, handleReady, trace)
    }

    /** Power-on: no handle, nothing sent; pin levels are whatever they were. */
    constructor (cs0: uint8, dc0: uint8, rst0: uint8)
      ensures State() == Hw(cs0, dc0, rst0, false, [])
    {
      cs, dc, rst := cs0, dc0, rst0;
      handleReady := false;
      trace := [];
    }

    method SpiInit(busOk: bool, addOk: bool) returns (ok: bool)
      modifies this
      ensures (State(), ok) == Init(old(State()), busOk, addOk)
    {
      if !busOk {
        return false;
      }
      if !addOk {
        return false;
      }
      handleReady := true;
      return true;
    }

    method SpiWriteData(data: seq<uint8>, dataLen: size_t, transmitOk: bool) returns (ok: bool)
      requires dataLen as int <= |data|
      modifies this
      ensures (State(), ok) == WriteData(old(State()), data, dataLen, transmitOk)
    {
      if !handleReady || dataLen == 0 {
        return false;
      }
      trace := trace + [Transaction(data[..dataLen], LengthBits(dataLen))];
      return transmitOk;
    }

    method SpiGpioInit()
      modifies this
      ensures State() == GpioInit(old(State()))
    {
      cs := 1;
      dc := 1;
      rst := 1;
    }

    method SpiSetCs(level: uint8)
      modifies this
      ensures State() == SetCs(old(State()), level)
    {
      cs := level;
    }

    method SpiSetDc(level: uint8)
      modifies this
      ensures State() == SetDc(old(State()), level)
    {
      dc := level;
    }

    method SpiSetRst(level: uint8)
      modifies this
      ensures State() == SetRst(old(State()), level)
    {
      rst := level;
    }

    method DelayMs(ms: uint32)
      modifies this
      ensures State() == Delay(old(State()), MsDelay(ms))
    {
      trace := trace + [MsDelay(ms)];
    }

    method DelayUs(us: uint32)
      modifies this
      ensures State() == Delay(old(State()), UsDelay(us))
    {
      trace := trace + [UsDelay(us)];
    }
  }
}
