# ADXL362 register access, modelled in Dafny

This project models the register-access layer of the ADXL362 accelerometer
driver in `firmware/adxl362.c`. The driver runs on an ATtiny and talks to the
sensor over SPI through the USI. Every operation is one or more chip-select
frames:

- `write_reg` and `write_reg16` send the write command 0x0A, the register
  address and one or two data bytes. A 16-bit value goes low byte first.
- `read_reg` and `read_reg16` send the read command 0x0B, the address and
  one or two dummy bytes. The replies are the register contents, low byte
  first.
- `read_fifo` sends the FIFO command 0x0D and then `len` dummy bytes, and
  stores each reply in `out`.
- The burst readers (`read_all_axes`, `read_all_axes_short`) read
  consecutive data registers in one frame.
- The configuration writers read a control register, change a bit field and
  write it back.

The model has these modules, one per file:

- `Registers` (registers.dfy): the command bytes, register addresses and
  bit positions of `firmware/adxl362.h`.
- `Words` (words.dfy): low and high byte, little-endian assembly, and the
  `int16_t` and `int8_t` views of raw patterns.
- `Framing` (framing.dfy): what the microcontroller puts on the bus, as a
  trace of chip-select edges and byte exchanges. It defines what a frame is
  and proves the framing discipline: one assertion, one release, and no byte
  exchanged while chip select is high.
- `SimDevice` (device.dfy): the sensor on the other end of the wire, as a
  pure state machine. It holds 64 byte registers and a FIFO queue and
  answers one exchanged byte at a time, with address auto-increment inside a
  frame. The run lemmas give closed forms for whole write, read and FIFO
  frames.
- `Protocol` (protocol.dfy): what each frame the driver sends does to the
  sensor. It also proves the 16-bit write/read round trip.
- `Fields` (fields.dfy): the read-modify-write bit-field updates of the
  configuration writers, in 8-bit arithmetic.
- `Config` (config.dfy): the register file after `config_act_int` and
  `config_inact_int`.
- `Driver` (driver.dfy): the driver itself. The class `Bus` holds the
  chip-select level, the event trace and the sensor. Each C function is a
  method that calls `Select`, `Transfer` and `Deselect` in the order of the
  source. Each method is proved against the frame it leaves on the trace and
  against the registers and FIFO it leaves in the sensor.

## Model

| member | source | states |
|---|---|---|
| Words.HiByte | firmware/adxl362.c:190 | the byte sent second by `write_reg16` is the value's integer quotient by 256 |
| Words.Le16 | firmware/adxl362.c:162-163 | a word assembled low byte first has exactly those two bytes as its low and high byte |
| Words.AddHighByte | firmware/adxl362.c:162-163 | the driver's `resp = lo; resp += hi << 8` never carries: the sum is the bitwise OR of the two bytes side by side, the little-endian assembly of the two bytes |
| Words.SplitThenAssemble | firmware/adxl362.c:185-192 | splitting a 16-bit value into the bytes `write_reg16` sends and assembling them as `read_reg16` does gives the value back |
| Words.Signed16 | firmware/adxl362.c:115-133 | the `int16_t` reading of a raw pattern is in [-32768, 32767], is negative iff bit 15 is set, and is congruent to the pattern mod 2^16 |
| Words.Signed8 | firmware/adxl362.c:135-145 | the `int8_t` reading of a raw byte is in [-128, 127], is negative iff bit 7 is set, and is congruent to the byte mod 256 |
| Framing.ExchangesAt | firmware/adxl362.c:194-202 | the i-th exchange of a frame pairs the i-th byte sent with the i-th byte received |
| Framing.Split | firmware/adxl362.c:147-192 | the bytes sent and received and the chip-select edges of two traces in sequence are those of each trace, concatenated or added |
| Framing.ExchangesShape | firmware/adxl362.c:194-202 | the exchanges of a frame carry exactly its sent and received bytes and no chip-select edge |
| Framing.FrameBytes | firmware/adxl362.c:147-192 | the bytes on the wire in a frame are exactly the bytes it was built from, in both directions |
| Framing.FrameEdges | firmware/adxl362.c:147-192 | every frame asserts chip select exactly once and releases it exactly once |
| Framing.FrameLayout | firmware/adxl362.c:147-192 | a frame starts with CS low, ends with CS high, and holds only byte exchanges in between |
| Framing.ExchangesWhileLow | firmware/adxl362.c:147-192 | after an assertion, exchanging any bytes keeps chip select low and breaks no rule |
| Framing.FrameKeepsDiscipline | firmware/adxl362.c:147-192 | appending a whole frame to a well-formed trace keeps it well formed and leaves chip select high |
| Framing.Frame3 | firmware/adxl362.c:177-183 | a three-byte frame after a trace is the trace followed by CS low, three exchanges and CS high |
| Framing.Frame4 | firmware/adxl362.c:157-166 | likewise for a four-byte frame (`write_reg16`, `read_reg16`) |
| Framing.Frame5 | firmware/adxl362.c:92-100 | likewise for the five-byte frame of `read_all_axes_short` |
| Framing.Frame8 | firmware/adxl362.c:102-113 | likewise for the eight-byte frame of `read_all_axes` |
| SimDevice.RunWrite | firmware/adxl362.c:177-192 | a write frame [0x0A, at, data...] is answered with zeros, stores `data` at `at`, `at+1`, ... and leaves the FIFO alone |
| SimDevice.RunRead | firmware/adxl362.c:147-166 | a read frame [0x0B, at, n zeros] is answered with two zeros and then the n registers from `at` on, and changes nothing |
| SimDevice.RunFifo | firmware/adxl362.c:168-175 | a FIFO frame [0x0D, n zeros] is answered with a zero and then the first n FIFO bytes, padded with zeros when the FIFO runs dry; those bytes are dropped and the registers are unchanged |
| SimDevice.RunWriting | firmware/adxl362.c:177-192 | once writing, each further byte is stored at the next address and answered with zero |
| SimDevice.RunReading | firmware/adxl362.c:147-166 | once reading, each dummy byte is answered with the next register |
| SimDevice.RunStreaming | firmware/adxl362.c:168-175 | once streaming, each dummy byte is answered with the next FIFO byte, which is dropped |
| SimDevice.RunAppend | firmware/adxl362.c:147-192 | running two byte sequences one after the other is running their concatenation |
| SimDevice.ChainedRun | firmware/adxl362.c:194-202 | single exchanges chained state to state are one run from the first state to the last |
| SimDevice.WriteThenReadBack | firmware/adxl362.c:147-192 | reading back a burst just written at the same address returns the data written |
| SimDevice.WriteOne | firmware/adxl362.c:177-183 | a one-byte burst is a single register store |
| Protocol.WriteRegFrame | firmware/adxl362.c:177-183 | the `write_reg` frame is answered with zeros, stores `value` at `reg` and leaves the FIFO alone |
| Protocol.WriteReg16Frame | firmware/adxl362.c:185-192 | the `write_reg16` frame stores the low byte at `reg` and the high byte at `reg + 1` |
| Protocol.ReadBurstFrame | firmware/adxl362.c:147-166 | the replies of a burst read after the two header bytes are the registers from `at` on, and the sensor is unchanged |
| Protocol.ReadRegFrame | firmware/adxl362.c:147-155 | the third reply of the `read_reg` frame is the register at `reg` |
| Protocol.ReadReg16Frame | firmware/adxl362.c:157-166 | the third and fourth replies of the `read_reg16` frame are the registers at `reg` and `reg + 1` |
| Protocol.ShortAxesFrame | firmware/adxl362.c:92-100 | the three replies after the header of the `read_all_axes_short` frame are XDATA, YDATA and ZDATA |
| Protocol.AxesFrame | firmware/adxl362.c:102-113 | the six replies after the header of the `read_all_axes` frame are XDATA_L/H, YDATA_L/H and ZDATA_L/H |
| Protocol.FifoFrame | firmware/adxl362.c:168-175 | the replies after the command byte of a `read_fifo` frame are the first n FIFO bytes, which leave the FIFO |
| Protocol.RoundTrip16 | firmware/adxl362.c:157-192 | writing a 16-bit value with `write_reg16` and reading the same pair back with `read_reg16` returns the value |
| Protocol.AxesSteps | firmware/adxl362.c:102-113 | the bytes `read_all_axes` receives one at a time are the six axis registers, and the sensor is unchanged |
| Fields.WithMeasureMode | firmware/adxl362.c:31-36 | POWER_CTL bits 0-1 become the mode's low two bits; bits 2-7 are kept when the mode fits in two bits, and otherwise pick up the mode's high bits |
| Fields.WithRange | firmware/adxl362.c:38-43 | FILTER_CTL bits 0-5 are always kept and bits 6-7 become the range's low two bits |
| Fields.WithOdr | firmware/adxl362.c:45-50 | FILTER_CTL bits 0-2 become the rate's low three bits; bits 3-7 are kept when the rate fits in three bits |
| Fields.WithLinkloop | firmware/adxl362.c:24-29 | ACT_INACT_CTL bits 0-3 are always kept and bits 4-7 become the mode's low four bits, so a 2-bit mode clears bits 6-7 |
| Fields.WithActivityEnabled | firmware/adxl362.c:79 | ACT_EN and ACT_REF become set; no other bit changes and no set bit is cleared |
| Fields.WithInactivityEnabled | firmware/adxl362.c:88 | INACT_EN and INACT_REF become set; no other bit changes and no set bit is cleared |
| Fields.OdrExample | firmware/adxl362.c:45-50 | setting rate 3 in 0x45 gives 0x43 |
| Fields.OversizedOdrSetsExtSample | firmware/adxl362.c:47-48 | with no width check, a rate of 8 sets the EXT_SAMPLE bit |
| Fields.OversizedModeSetsAutosleep | firmware/adxl362.c:33-34 | with no width check, a mode of 4 sets the AUTOSLEEP bit |
| Config.ActivityConfigured | firmware/adxl362.c:74-81 | after `config_act_int` THRESH_ACT_L/H hold the threshold low byte first, TIME_ACT holds the time, ACT_INACT_CTL has only gained ACT_EN and ACT_REF, and every other register is unchanged |
| Config.InactivityConfigured | firmware/adxl362.c:83-90 | after `config_inact_int` THRESH_INACT_L/H and TIME_INACT_L/H hold the threshold and the time low byte first, ACT_INACT_CTL has only gained INACT_EN and INACT_REF, and every other register is unchanged |
| Driver.StreamTraceFrame | firmware/adxl362.c:170-173 | the trace of a FIFO read in progress is CS low followed by the exchanges of the command and the dummy bytes so far |
| Driver.StreamTraceClosed | firmware/adxl362.c:168-175 | a finished FIFO read is one frame; with `len` = 0 it is CS low, the command exchange, CS high |
| Driver.AxisRegister | firmware/adxl362.c:115-129 | X, Y and Z select XDATA_L, YDATA_L and ZDATA_L; any other selector falls back to ZDATA_L; each axis's pair is the one `read_all_axes` stores at `data[axis]` |
| Driver.ShortAxisRegister | firmware/adxl362.c:135-145 | X, Y and Z select XDATA, YDATA and ZDATA; any other selector falls back to XDATA; each axis's register is the one `read_all_axes_short` stores at `data[axis]` |
| Driver.Bus.constructor | firmware/adxl362.h:56-57 | a bus starts with an empty trace, the given registers and FIFO, and chip select at either level, satisfying the bus invariant |
| Driver.Bus.Select | firmware/adxl362.h:57 | CS goes low, the event is traced, and the sensor waits for a command |
| Driver.Bus.Deselect | firmware/adxl362.h:56 | CS goes high, the event is traced, and the sensor ends the frame |
| Driver.Bus.Transfer | firmware/adxl362.c:194-202 | only while CS is low; one exchange is traced, and the byte returned is the sensor's answer |
| Driver.Bus.WriteReg | firmware/adxl362.c:177-183 | the trace gains exactly the frame [0x0A, reg, value]; the register at `reg` becomes `value` and nothing else changes |
| Driver.Bus.WriteReg16 | firmware/adxl362.c:185-192 | the trace gains exactly the frame [0x0A, reg, low, high]; the two registers from `reg` on take the value low byte first |
| Driver.Bus.ReadReg | firmware/adxl362.c:147-155 | returns the register at `reg`; the trace gains exactly the frame [0x0B, reg, 0]; the sensor is unchanged |
| Driver.Bus.ReadReg16 | firmware/adxl362.c:157-166 | returns the registers at `reg` and `reg + 1` assembled low byte first; the trace gains one four-byte frame; the sensor is unchanged |
| Driver.Bus.ReadFifo | firmware/adxl362.c:168-175 | `out[0..len)` receives the first `len` FIFO bytes and `out[len..]` is unchanged; the trace gains one frame of the command and `len` dummy bytes (CS low, command, CS high when `len` = 0); those bytes leave the FIFO |
| Driver.Bus.ReadAllAxes | firmware/adxl362.c:102-113 | `data[0..3)` receive the X, Y and Z 16-bit patterns, each assembled low byte first, in one eight-byte frame; the rest of `data` and the sensor are unchanged |
| Driver.Bus.ReceiveWord | firmware/adxl362.c:106-107 | one element of `data` receives two bytes assembled low byte first; no other element changes |
| Driver.Bus.ReadAllAxesShort | firmware/adxl362.c:92-100 | `data[0..3)` receive XDATA, YDATA and ZDATA in one five-byte frame; the rest of `data` and the sensor are unchanged |
| Driver.Bus.ReadAxis | firmware/adxl362.c:115-129 | returns the signed 16-bit reading of the selected axis, with Z for an unknown selector, read in one `read_reg16` frame |
| Driver.Bus.ReadAxisShort | firmware/adxl362.c:135-145 | returns the signed 8-bit reading of the selected axis, with X for an unknown selector, read in one `read_reg` frame |
| Driver.Bus.ReadTemp | firmware/adxl362.c:131-133 | returns TEMP_L/TEMP_H as a signed 16-bit value, read in one frame |
| Driver.Bus.ConfigLinkloop | firmware/adxl362.c:24-29 | one read frame and one write frame of ACT_INACT_CTL; only that register changes, to `WithLinkloop` of its old value |
| Driver.Bus.ConfigMeasureMode | firmware/adxl362.c:31-36 | one read frame and one write frame of POWER_CTL; only that register changes, to `WithMeasureMode` of its old value |
| Driver.Bus.ConfigRange | firmware/adxl362.c:38-43 | one read frame and one write frame of FILTER_CTL; only that register changes, to `WithRange` of its old value |
| Driver.Bus.ConfigOdr | firmware/adxl362.c:45-50 | one read frame and one write frame of FILTER_CTL; only that register changes, to `WithOdr` of its old value |
| Driver.Bus.ConfigInt1 | firmware/adxl362.c:60 | one write frame stores the interrupt source map in INTMAP1 |
| Driver.Bus.ConfigInt2 | firmware/adxl362.c:71 | one write frame stores the interrupt source map in INTMAP2 |
| Driver.Bus.ConfigActInt | firmware/adxl362.c:74-81 | four frames in source order; the registers end as `Config.ActivityConfigured` |
| Driver.Bus.ConfigInactInt | firmware/adxl362.c:83-90 | four frames in source order; the registers end as `Config.InactivityConfigured` |
| Driver.Bus.Begin | firmware/adxl362.c:19-21 | CS is driven high, then exactly [CS low, 0x0A, 0x1F, 0x52, CS high] follows; SOFT_RESET holds 0x52 |

## Left out

- The USI itself is not modelled: `usi_transfer` polls USISR and toggles
  USICR until the byte has been shifted. `Driver.Bus.Transfer` is one atomic
  exchange with the simulated sensor.
- Port and pin set-up is not modelled. This covers the DDR and PORT writes in
  `adxl362_begin` (firmware/adxl362.c:13-17) and the `direction` and `pullup`
  handling of `config_int1` and `config_int2`. Only their register writes are
  modelled.
- The chip-select level before `adxl362_begin` is unknown. The
  `Driver.Bus` constructor takes it as a parameter, and `Driver.Bus.Begin`
  accepts either level.
- The sensor is a simulation, and its behaviour is an assumption of the model:
  - auto-increment within a frame;
  - zero replies during the command and address bytes;
  - zero bytes once the FIFO is empty;
  - addresses past the 64 registers read as zero, and writes to them are
    ignored.
- A soft reset is not modelled. `Begin` only stores 0x52 in SOFT_RESET and
  does not return the other registers to their defaults. The sensor's own
  sampling does not change the data registers between frames.
- Physical units (mg per LSB, temperature scale) and the 12-bit sign
  extension inside the sensor are out of scope. Readings are the raw
  register patterns.
- `int16_t` and `int8_t` arrays are modelled as arrays of `bv16` and `bv8`
  bit patterns.
- The high-byte shift `usi_transfer(0x00) << 8` is computed in a 16-bit `int`
  on the AVR. It overflows whenever the byte is 0x80 or more: in `read_reg16`
  (firmware/adxl362.c:163) and in `read_all_axes` (lines 107, 109 and 111).
  ISO C leaves that overflow undefined; the AVR compiler wraps it. The model
  takes that wrap-around: `Driver.Bus.ReadReg16` and `Driver.Bus.ReceiveWord`
  compute the shift and the sum in `bv16` arithmetic. The later conversion
  to `int16_t` then loses nothing.
- `Driver.Bus.ReceiveWord` is not a C function. It groups the two statements
  that fill one element in `read_all_axes` (firmware/adxl362.c:106-111).
- The framing discipline is not kept as an invariant of `Bus`. It is proved
  for frames by `Framing.FrameEdges` and `Framing.FrameKeepsDiscipline`.
  Every driver method states that it appends exactly such frames.
- Driver.Bus.ReadFifo: requires `len <= out.Length`. In C, a shorter
  buffer is undefined behaviour.
- Driver.Bus.ReadAllAxes and Driver.Bus.ReadAllAxesShort: require three
  elements in `data`, for the same reason.
- Concurrency and interrupts are not modelled. Nothing else uses the bus
  during a frame.
- `firmware/sbl.c` (the application) is not part of this model.

