# swift-esp32c6-monoui display core, modelled in Dafny

This project models the core of a small ESP32-C6 firmware that drives a
monochrome OLED panel and a few menu pages:

- **SPI support layer** (`spi.dfy`, module `Spi`). This is `spi.c` plus the
  `delay_ms` that `spi.h` declares. The hardware is a `SpiPort` object. It
  holds the CS, DC and RST levels as last passed to `gpio_set_level`, whether
  the module-global `spi_handle` is set, and an append-only trace of bus
  transactions and requested delays. Each C function is a method. Its
  `ensures` ties the new state to a pure function of the old state (`Init`,
  `WriteData`, `GpioInit`, `SetCs`, `SetDc`, `SetRst`, `Delay`).
- **u8g2 bus driver** (`driver.dfy`, module `U8g2Driver`). This is
  `M5StackC6LU8g2Driver`, with its byte channel `OnByte` and its GPIO/delay
  channel `OnGpioAndDelay`. The u8x8 message constants are defined by the
  u8g2 library, not by this repository. They are carried as a `MsgCodes`
  record. `WellFormed` states that they are distinct, as u8x8 defines them.
  Only the GPIO codes 73/74/75 (64 + pin 9/10/11) are literal. Each switch is
  an if-chain in source order. `ByteStep` and `GpioStep` give the effect of
  one message. `RunBytes` and `RunGpio` give the effect of a sequence of
  messages, and the lemmas about them cover byte order, chip-select
  bracketing and delay requests.
- **Pages** (`pages.dfy`, module `Pages`). This covers the key rules of
  `DetailPage`, `TextIconTestPage`, `HomePage` and `ScrollViewTestPage`.
  `HomePage.handleSelection` is included. So is the cyclic cursor search
  `ScrollViewTestPage.moveToNextSelectableItem`, an imperative loop proved
  against `NextSelectable`. `NextSelectable` is defined through a closed-form
  cyclic probe (`Probe`). The router is an abstract recipient: a
  `modalPresent` flag and a log of `Push`/`Pop`/`Present`/`DismissModal`
  commands.
- **Application cycle** (`app.dfy`, module `App`). This is
  `ESP32C6App.setup` and `ESP32C6App.loop` as a trace of the calls they make.
  The loop drains the UART and forwards keys >= 0 in read order. Then it
  clears the buffer, sets the modes, draws the router and sends the buffer
  once.

Outcomes that only the hardware decides are parameters: `HwReplies` holds
the results of `spi_bus_initialize`, `spi_bus_add_device` and
`spi_device_polling_transmit`. The values `uart_read_char` returns during
one tick are also a parameter. The memory behind `arg_ptr` is a
`seq<uint8>` that must hold at least `arg_int` bytes, as u8g2 guarantees.

## Model

| member | source | states |
|---|---|---|
| `Spi.LengthBits` | main/Source/Support/src/spi.c:56-57 | The transmit length is `data_len * 8` computed in a 32-bit size_t. For any length up to max_transfer_sz (1024) it equals 8 × the byte count exactly. |
| `Spi.Init` | main/Source/Support/src/spi.c:12-49 | `spi_init` returns true iff both the bus initialisation and the device add succeed. The handle becomes set only through a successful add. Pins and trace are untouched. |
| `Spi.WriteData` | main/Source/Support/src/spi.c:51-68 | Without a handle, or with `data_len == 0`, the call returns false and nothing is written. Otherwise exactly one transaction of `data[0..data_len)`, unchanged, is written, with length `data_len * 8` bits. The result is the transmit outcome. |
| `Spi.GpioInit` | main/Source/Support/src/spi.c:70-88 | After `spi_gpio_init`, CS, DC and RST are all 1. The handle and the trace are unchanged. |
| `Spi.SetCs` | main/Source/Support/src/spi.c:90-92 | `spi_set_cs` sets CS to `level`. DC, RST, the handle and the trace are unchanged. |
| `Spi.SetDc` | main/Source/Support/src/spi.c:94-96 | `spi_set_dc` sets DC to `level`. CS, RST, the handle and the trace are unchanged. |
| `Spi.SetRst` | main/Source/Support/src/spi.c:98-100 | `spi_set_rst` sets RST to `level`. CS, DC, the handle and the trace are unchanged. |
| `Spi.Delay` | main/Source/Support/src/spi.c:104-106 | A delay appends exactly one request of the given duration to the trace. It changes nothing else and transmits no byte. |
| `Spi.SpiPort.SpiInit` | main/Source/Support/src/spi.c:12-49 | The new hardware state and the result are those of `Init`. |
| `Spi.SpiPort.SpiWriteData` | main/Source/Support/src/spi.c:51-68 | The new hardware state and the result are those of `WriteData`, including the early return of the guard. |
| `Spi.SpiPort.SpiGpioInit` | main/Source/Support/src/spi.c:70-88 | The new state is `GpioInit` of the old one. |
| `Spi.SpiPort.SpiSetCs` | main/Source/Support/src/spi.c:90-92 | The new state is `SetCs(old, level)`. |
| `Spi.SpiPort.SpiSetDc` | main/Source/Support/src/spi.c:94-96 | The new state is `SetDc(old, level)`. |
| `Spi.SpiPort.SpiSetRst` | main/Source/Support/src/spi.c:98-100 | The new state is `SetRst(old, level)`. |
| `Spi.SpiPort.DelayUs` | main/Source/Support/src/spi.c:104-106 | `delay_us(us)` requests exactly `us` microseconds. |
| `Spi.SpiPort.DelayMs` | main/Source/Support/src/rtos_utils.c:3-5 | `delay_ms(ms)` records one request for `ms` milliseconds, and nothing else changes. |
| `U8g2Driver.ByteStep` | main/Source/App/M5StackC6LU8g2Driver.swift:11-43 | An unrecognised code changes nothing. INIT is `spi_init`. SET_DC sets only DC to `arg_int`. START_TRANSFER sets only CS to 0, and END_TRANSFER sets only CS to 1. SEND with a non-null pointer and `arg_int > 0` writes `data[0..arg_int)` verbatim as one transaction, given a handle. Otherwise SEND writes nothing. A message adds at most one transaction, of at most 255 bytes, which is below max_transfer_sz. |
| `U8g2Driver.GpioStep` | main/Source/App/M5StackC6LU8g2Driver.swift:45-84 | An unrecognised code changes nothing. INIT is `spi_gpio_init`. Codes 73/74/75 set only CS/DC/RST to `arg_int`. DELAY_MILLI requests `arg_int` ms. DELAY_10MICRO requests `10·arg_int` µs, which cannot overflow UInt32. Both delays leave the pins and the handle as they were. DELAY_100NANO does nothing. No GPIO message transmits a byte. |
| `U8g2Driver.M5StackC6LU8g2Driver.OnByte` | main/Source/App/M5StackC6LU8g2Driver.swift:11-43 | Every byte-channel message is acknowledged with 1, including unknown codes. The hardware ends in the state `ByteStep` gives. The SEND arm's copy loop fills `tempBuffer` with exactly `data[0..arg_int)`. |
| `U8g2Driver.M5StackC6LU8g2Driver.OnGpioAndDelay` | main/Source/App/M5StackC6LU8g2Driver.swift:45-84 | Every GPIO/delay message is acknowledged with 1, including unknown codes. The hardware ends in the state `GpioStep` gives. |
| `U8g2Driver.RunBytesAppendOnly` | main/Source/App/M5StackC6LU8g2Driver.swift:11-43 | Over any run of byte messages, the trace only grows and a set handle stays set. |
| `U8g2Driver.StepSendsVerbatim` | main/Source/App/M5StackC6LU8g2Driver.swift:25-34 | With the handle set, one callback submits exactly its own SEND bytes to the transmit: the whole payload for a non-empty SEND, nothing for any other message. The handle stays set. |
| `U8g2Driver.RunBytesSendsVerbatim` | main/Source/App/M5StackC6LU8g2Driver.swift:25-34 | Once the handle is set, the bytes submitted to the transmit over any run are exactly the SEND payloads, concatenated in call order. Nothing is reordered, truncated or added. |
| `U8g2Driver.TransferIsBracketed` | main/Source/App/M5StackC6LU8g2Driver.swift:21-38 | In a transfer START, (SEND or SET_DC)*, END, every SEND is issued with CS low. CS is high afterwards. |
| `U8g2Driver.RunGpioOnlyDelays` | main/Source/App/M5StackC6LU8g2Driver.swift:51-84 | A run of GPIO/delay messages appends exactly its delay requests to the trace, verbatim and in order. It transmits nothing. |
| `Pages.BackCommand` | main/Source/App/Pages.swift:58-65 | The back key yields `dismissModal` iff a modal is present, and `pop` iff not. |
| `Pages.DetailPageInput` | main/Source/App/Pages.swift:56-78 | 'q' issues exactly the back command. 'e' presents the "Info"/"Hello World" alert. Every other key issues nothing. At most one command per key. |
| `Pages.TextIconPageInput` | main/Source/App/Pages.swift:249-261 | 'q' issues exactly the back command. Every other key issues nothing. |
| `Pages.HomeSelection` | main/Source/App/Pages.swift:181-201 | A command is issued iff the index is 1, 2 or 3. That command is one push: TextIconTestPage, DetailPage("Volt") or ScrollViewTestPage respectively. Index 0 and all others issue nothing. |
| `Pages.HomePageInput` | main/Source/App/Pages.swift:156-179 | 'd'/'a' move the tiles forward/back. 'e' routes the current tile's selection. 'p' presents a ProgressView of 50. Every other key, 'q' included, does nothing. |
| `Pages.Probe` | main/Source/App/Pages.swift:452-460 | Each probed index stays in `[0, itemCount-1]`, with wrap-around at both ends. A probe returns to the start index only after zero or a full turn of steps. |
| `Pages.NextSelectableIsSelectable` | main/Source/App/Pages.swift:452-469 | The cursor stays in range. If it moves, it lands on an item that is neither a header nor a separator. |
| `Pages.NextSelectableIsFirst` | main/Source/App/Pages.swift:452-469 | The cursor lands on the first selectable item in cyclic order, starting from `selectedIndex + direction`. |
| `Pages.NextSelectableNoneFound` | main/Source/App/Pages.swift:463-475 | If the whole turn finds no selectable item, the cursor is unchanged. |
| `Pages.NextSelectableOnlyStart` | main/Source/App/Pages.swift:463-475 | If no item other than the start is selectable, the cursor is unchanged. |
| `Pages.InitialSelection` | main/Source/App/Pages.swift:341-364 | The initial cursor 2 is the first item of the ScrollViewTestPage list that is neither a header nor a separator. |
| `Pages.ScrollViewCommands` | main/Source/App/Pages.swift:400-429 | 'q' issues exactly the back command. 'e' presents a progress view iff the brightness or volume item is selected, carrying that item's title and value. Every other key issues no router command. |
| `Pages.ScrollViewTestPage.constructor` | main/Source/App/Pages.swift:282-368 | The list holds the 19 items in source order. The cursor starts at `InitialSelection()`. Brightness is 50 and volume is 75. The page starts valid: the cursor is on an item that is neither a header nor a separator. |
| `Pages.ScrollViewTestPage.MoveToNextSelectableItem` | main/Source/App/Pages.swift:443-476 | On an empty list nothing changes. Otherwise the loop terminates and leaves `selectedIndex == NextSelectable(items, old index, direction)`. The items are untouched. |
| `Pages.ScrollViewTestPage.HandleInput` | main/Source/App/Pages.swift:389-430 | 'w'/'s' move the cursor by -1/+1. The router receives exactly `ScrollViewCommands`. 'e' on any other item hands the cursor to the list's own selection handler. The page stays valid, so the cursor never rests on a header or a separator. |
| `App.ForwardedAppend` | main/Source/App/App.swift:37-43 | Forwarding preserves read order: the keys of earlier reads reach the router before those of later reads. |
| `App.ForwardedCounts` | main/Source/App/App.swift:37-43 | Each key >= 0 is forwarded exactly as often as it was read. Negative read results are never forwarded. |
| `App.ForwardedAreBytes` | main/Source/App/App.swift:37-43 | Every forwarded key is in 0..255. |
| `App.TickShape` | main/Source/App/App.swift:35-60 | A tick sends exactly one buffer, as its last event. Every input of the tick is handled before the buffer is cleared. |
| `App.TickKeepsWholeFrames` | main/Source/App/App.swift:45-59 | A tick keeps the invariant that every SendBuffer directly follows ClearBuffer, SetBitmapMode(1), SetFontMode(1) and router.draw. So no partial frame is ever sent. |
| `App.SessionWellOrdered` | main/Source/App/App.swift:19-60 | Setup comes first: uart init, then display init, power-save off and clear, then setRoot(HomePage). Over any number of ticks only whole frames are sent, and no key reaches the router before the root page is set. |
| `App.ESP32C6App.Setup` | main/Source/App/App.swift:19-33 | `setup` appends its calls in source order, with setRoot(HomePage) last. |
| `App.ESP32C6App.Loop` | main/Source/App/App.swift:35-60 | One call of `loop` appends exactly the tick's events: the forwarded inputs, then the frame. It keeps the whole-frame invariant. |

## Left out

- Router, Page base class, AnimationValue, TileMenu and ListMenu internals: they belong to the MonoUI package, which is not part of this repository. The router only records commands. Commands do not change `modalPresent`, because when the modal slot changes is MonoUI's business. TileMenu's moveNext/movePrevious are recorded as actions only. ListMenu's own `handleSelection` is recorded as an activation of the cursor index.
- Slide animations (`offsetX`, `animateIn`/`animateOut`, `isExitAnimationFinished`) and `getCurrentTime`: floating point, driven by MonoUI's interpolator.
- Every u8g2 drawing call (the pages' `draw` methods, DrawFrame, DrawStr, SetFont, SendBuffer internals): a foreign C library. App events stand for the buffer calls.
- Icon bitmap tables, widget construction, and the toggle/radio/checkbox state holders: declarative data and glue. Only the sequence of item kinds of ScrollViewTestPage is kept.
- ProgressView's `onValueChanged` conversion `Int(newValue)`: a float-to-int conversion inside MonoUI's callback.
- `Application.shared as? ESP32C6App`: the cast always succeeds in this application, so it is modelled as succeeding.
- ESP-IDF configuration structs, `gpio_config`, logging and error codes in `spi.c`: only the success or failure of each ESP-IDF call is kept, as a parameter.
- Pin levels are recorded as the `uint8` value passed to `gpio_set_level`. How ESP-IDF turns a nonzero value into a high line is not modelled.
- The real time a delay takes: only the requested duration is recorded.
- Spi.SpiPort.DelayMs: records `ms` as given. `delay_ms` passes `pdMS_TO_TICKS(ms)` to `vTaskDelay`, which rounds down to whole scheduler ticks. A request shorter than one tick period (for example DELAY_MILLI 1 at a 100 Hz tick) therefore does not sleep at all. The tick rate is FreeRTOS configuration and is not part of this model.
- Whether a transaction reached the wire: a `Transaction` in the trace is a buffer handed to `spi_device_polling_transmit`, whatever that call returned. The driver discards the result of `spi_init` (M5StackC6LU8g2Driver.swift:14) and of `spi_write_data` (M5StackC6LU8g2Driver.swift:32). So a failed bus setup or a failed transmit loses that SEND's bytes, and nothing reports the failure to u8g2. The failed setup shows in the model as `handleReady` staying false. The failed transmit shows only as `WriteData`'s false result, which the driver ignores.
- Pages.ScrollViewTestPage.MoveToNextSelectableItem: requires the cursor to be in range, which the page always keeps. In the source (Pages.swift:447-475), a cursor out of range in a list with no selectable item would never lead `currentIndex` back to `startIndex`, and the loop would not end. The page never reaches that state, so the model does not capture it.
- Identity comparison `===` with the brightness and volume items is value equality on `Value("Brightness")` and `Value("Volume")`. Each of these items occurs once in the list.
- The driver's `init` (u8g2 setup for the SSD1306 64x48 panel) and the `main` entry point. App.swift:65 instantiates a different driver class, so the driver is modelled standalone.
- `i2c.c`, `uart.c` and `rtos_utils.c`'s tick counter: not used by the modelled core. The UART appears only as the sequence of values `uart_read_char` returns.
