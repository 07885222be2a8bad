/** The register-access layer of the ADXL362 driver (firmware/adxl362.c),
    as methods on a bus object. The microcontroller side of the bus is the
    chip-select level and the trace of events it produces; the sensor on the
    other end of the wire is the simulated device, which answers every
    exchanged byte. Each operation is proved against the frame it puts on the
    bus and against what it does to the device's registers and FIFO. */
module Driver {
  import opened Registers
  import opened Words
  import opened Framing
  import opened SimDevice
  import opened Fields
  import opened Protocol
  import opened Config

  /** The trace of a `read_fifo` frame so far, after the trace `before`: the
      assertion, the command exchange, and `n` streamed bytes. */
  function StreamTrace(before: seq<Event>, q: seq<bv8>, n: nat): (t: seq<Event>)
    ensures |t| == |before| + n + 2
  {
    if n == 0 then before + [CsLow, Tx(FifoCommand, 0)]
    else StreamTrace(before, q, n - 1) + [Tx(0, FifoByte(q, n - 1))]
  }

  /** The partial `read_fifo` trace is the assertion followed by the
      exchanges of the command byte and `n` dummy bytes. */
  lemma {:induction false} StreamTraceFrame(before: seq<Event>, q: seq<bv8>, n: nat)
    ensures StreamTrace(before, q, n) == before + [CsLow] + Exchanges([FifoCommand] + Zeros(n), [0] + FifoTake(q, n))
  {
    if n == 0 {
      assert [FifoCommand] + Zeros(0) == [FifoCommand] && [0] + FifoTake(q, 0) == [0];
      assert Exchanges([FifoCommand], [0]) == [Tx(FifoCommand, 0)];
    } else {
      var x := FifoByte(q, n - 1);
      var m := [FifoCommand] + Zeros(n - 1);
      var r := [0] + FifoTake(q, n - 1);
      var e := Exchanges(m, r);
      StreamTraceFrame(before, q, n - 1);
      ExchangesSnoc(m, r, 0, x);
      ZerosSnoc(n);
      Append([FifoCommand], Zeros(n - 1), [0]);
      FifoTakeSnoc(q, n);
      Append([0], FifoTake(q, n - 1), [x]);
      Append(before + [CsLow], e, [Tx(0, x)]);
    }
  }

  /** The closed `read_fifo` frame, as the driver's postcondition states it. */
  lemma StreamTraceClosed(before: seq<Event>, q: seq<bv8>, n: nat)
    ensures StreamTrace(before, q, n) + [CsHigh] == before + Frame([FifoCommand] + Zeros(n), [0] + FifoTake(q, n))
    ensures n == 0 ==> StreamTrace(before, q, n) + [CsHigh] == before + [CsLow, Tx(FifoCommand, 0), CsHigh]
  {
    StreamTraceFrame(before, q, n);
  }

  /** With `i` bytes already streamed, the next dummy byte brings out the
      FIFO's byte `i` (zero once it runs dry) and drops it. */
  lemma StreamStepNext(c: Chip, q: seq<bv8>, i: nat)
    requires c.phase == Streaming && c.fifo == FifoDrop(q, i)
    ensures Exchange(c, 0) == Shift(FifoByte(q, i), c.(fifo := FifoDrop(q, i + 1)))
  {
    FifoSnoc(q, i);
    if i < |q| {
      assert FifoDrop(q, i)[0] == q[i];
    }
  }

  /** The low register of the 12-bit reading `read_axis` fetches for a
      selector: X, Y and Z map to their own pair, any other selector falls
      back to Z. For the three axes it is the pair `read_all_axes` places at
      `data[axis]`. */
  function AxisRegister(axis: int): (reg: bv8)
    ensures axis == AxisX ==> reg == XDataL
    ensures axis == AxisY ==> reg == YDataL
    ensures axis == AxisZ ==> reg == ZDataL
    ensures axis != AxisX && axis != AxisY ==> reg == ZDataL
    ensures AxisX <= axis <= AxisZ ==> reg as int == XDataL as int + 2 * axis
  {
    if axis == AxisX then XDataL
    else if axis == AxisY then YDataL
    else ZDataL
  }

  /** The 8-bit register `read_axis_short` fetches for a selector: any
      selector other than Y and Z falls back to X. For the three axes it is
      the byte `read_all_axes_short` places at `data[axis]`. */
  function ShortAxisRegister(axis: int): (reg: bv8)
    ensures axis == AxisX ==> reg == XData
    ensures axis == AxisY ==> reg == YData
    ensures axis == AxisZ ==> reg == ZData
    ensures axis != AxisY && axis != AxisZ ==> reg == XData
    ensures AxisX <= axis <= AxisZ ==> reg as int == XData as int + axis
  {
    if axis == AxisY then YData
    else if axis == AxisZ then ZData
    else XData
  }

  /** The SPI bus as the driver drives it through the USI. */
  class Bus {
    /** The chip-select output: true is high (the sensor is deselected). */
    var cs: bool
    /** Every chip-select edge and byte exchange so far, oldest first. */
    var trace: seq<Event>
    /** The sensor on the other end of the wire. */
    var sensor: Chip

    /** The sensor has its 64 registers and sees a frame exactly while chip
        select is low. */
    ghost predicate Valid()
      reads this
    {
      && |sensor.regs| == RegisterCount
      && (cs <==> sensor.phase == Deselected)
    }

    /** A bus at power-on: the sensor holds `regs` and `fifo`, and chip select
        is at level `high`, which the driver does not control before
        `adxl362_begin`. With chip select low the sensor is taken to be inside
        a frame it ignores. */
    constructor(regs: seq<bv8>, fifo: seq<bv8>, high: bool)
      requires |regs| == RegisterCount
      ensures Valid() && cs == high && trace == []
      ensures sensor.regs == regs && sensor.fifo == fifo
    {
      cs := high;
      trace := [];
      sensor := Chip(regs, fifo, if high then Deselected else Ignoring);
    }

    /** `ADXL_CS_LOW`: the sensor starts a frame and waits for a command. */
    method Select()
      requires Valid() && cs
      modifies this
      ensures Valid() && !cs
      ensures trace == old(trace) + [CsLow]
      ensures sensor == old(sensor).(phase := Command)
    {
      cs := false;
      trace := trace + [CsLow];
      sensor := sensor.(phase := Command);
    }

    /** `ADXL_CS_HIGH`: the sensor ends the current frame. */
    method Deselect()
      requires Valid()
      modifies this
      ensures Valid() && cs
      ensures trace == old(trace) + [CsHigh]
      ensures sensor == old(sensor).(phase := Deselected)
    {
      cs := true;
      trace := trace + [CsHigh];
      sensor := sensor.(phase := Deselected);
    }

    /** `usi_transfer`: one full-duplex byte exchange. The byte shifted out is
        `b`; the byte shifted in is the sensor's answer. The USI register
        handling and the busy-wait for the transfer to finish are not modelled. */
    method Transfer(b: bv8) returns (r: bv8)
      requires Valid() && !cs
      modifies this
      ensures Valid() && !cs
      ensures trace == old(trace) + [Tx(b, r)]
      ensures Shift(r, sensor) == Exchange(old(sensor), b)
    {
      var s := Exchange(sensor, b);
      r := s.out;
      sensor := s.next;
      trace := trace + [Tx(b, r)];
    }

    /** `write_reg`: one frame [0x0A, reg, value]; the sensor stores the value at `reg`. */
    method WriteReg(reg: bv8, value: bv8)
      requires Valid() && cs
      modifies this
      ensures Valid() && cs
      ensures trace == old(trace) + Frame([WriteCommand, reg, value], [0, 0, 0])
      ensures sensor.regs == Store(old(sensor.regs), reg as nat, value)
      ensures sensor.fifo == old(sensor.fifo)
    {
      Select();
      ghost var s0 := sensor;
      var r0 := Transfer(WriteCommand);
      ghost var s1 := sensor;
      var r1 := Transfer(reg);
      ghost var s2 := sensor;
      var r2 := Transfer(value);
      WriteRegSteps(s0, reg, value, r0, r1, r2, s1, s2, sensor);
      Frame3(old(trace), WriteCommand, reg, value, r0, r1, r2);
      Deselect();
    }

    /** `write_reg16`: one frame [0x0A, reg, low byte, high byte]; the sensor
        stores the two bytes at `reg` and `reg + 1`. */
    method WriteReg16(reg: bv8, value: bv16)
      requires Valid() && cs
      modifies this
      ensures Valid() && cs
      ensures trace == old(trace) + Frame([WriteCommand, reg, LoByte(value), HiByte(value)], [0, 0, 0, 0])
      ensures sensor.regs == WriteBurst(old(sensor.regs), reg as nat, [LoByte(value), HiByte(value)])
      ensures sensor.fifo == old(sensor.fifo)
    {
      Select();
      ghost var s0 := sensor;
      var r0 := Transfer(WriteCommand);
      ghost var s1 := sensor;
      var r1 := Transfer(reg);
      ghost var s2 := sensor;
      var r2 := Transfer(LoByte(value));
      ghost var s3 := sensor;
      var r3 := Transfer(HiByte(value));
      WriteReg16Steps(s0, reg, LoByte(value), HiByte(value), r0, r1, r2, r3, s1, s2, s3, sensor);
      Frame4(old(trace), WriteCommand, reg, LoByte(value), HiByte(value), r0, r1, r2, r3);
      Deselect();
    }

    /** `read_reg`: one frame [0x0B, reg, 0x00]; the result is the byte
        received on the third exchange, the register at `reg`. */
    method ReadReg(reg: bv8) returns (value: bv8)
      requires Valid() && cs
      modifies this
      ensures Valid() && cs
      ensures value == Load(old(sensor.regs), reg as nat)
      ensures trace == old(trace) + Frame([ReadCommand, reg, 0], [0, 0, value])
      ensures sensor.regs == old(sensor.regs) && sensor.fifo == old(sensor.fifo)
    {
      Select();
      ghost var s0 := sensor;
      var r0 := Transfer(ReadCommand);
      ghost var s1 := sensor;
      var r1 := Transfer(reg);
      ghost var s2 := sensor;
      value := Transfer(0);
      ReadRegSteps(s0, reg, r0, r1, value, s1, s2, sensor);
      Frame3(old(trace), ReadCommand, reg, 0, r0, r1, value);
      Deselect();
    }

    /** `read_reg16`: one frame [0x0B, reg, 0x00, 0x00]; the result is the
        third byte received plus the fourth shifted up by eight. */
    method ReadReg16(reg: bv8) returns (value: bv16)
      requires Valid() && cs
      modifies this
      ensures Valid() && cs
      ensures value == Le16(Load(old(sensor.regs), reg as nat), Load(old(sensor.regs), reg as nat + 1))
      ensures trace == old(trace) + Frame([ReadCommand, reg, 0, 0], [0, 0, LoByte(value), HiByte(value)])
      ensures sensor.regs == old(sensor.regs) && sensor.fifo == old(sensor.fifo)
    {
      Select();
      ghost var s0 := sensor;
      var r0 := Transfer(ReadCommand);
      ghost var s1 := sensor;
      var r1 := Transfer(reg);
      ghost var s2 := sensor;
      var lo := Transfer(0);
      value := lo as bv16;
      ghost var s3 := sensor;
      var hi := Transfer(0);
      value := value + ((hi as bv16) << 8);
      AddHighByte(lo, hi);
      ReadReg16Steps(s0, reg, r0, r1, lo, hi, s1, s2, s3, sensor);
      Frame4(old(trace), ReadCommand, reg, 0, 0, r0, r1, lo, hi);
      Deselect();
    }

    /** `read_fifo`: one frame [0x0D, `len` times 0x00]; the byte received on
        the `i+1`-th exchange goes to `out[i]`. `len` is a `uint16_t`. */
    method ReadFifo(out: array<bv8>, len: nat)
      requires Valid() && cs
      requires len < 0x1_0000 && len <= out.Length
      modifies this, out
      ensures Valid() && cs
      ensures out[..len] == FifoTake(old(sensor.fifo), len)
      ensures out[len..] == old(out[len..])
      ensures trace == old(trace) + Frame([FifoCommand] + Zeros(len), [0] + out[..len])
      ensures len == 0 ==> trace == old(trace) + [CsLow, Tx(FifoCommand, 0), CsHigh]
      ensures sensor.regs == old(sensor.regs) && sensor.fifo == FifoDrop(old(sensor.fifo), len)
    {
      Select();
      ghost var c := sensor;
      var r0 := Transfer(FifoCommand);
      assert FifoDrop(c.fifo, 0) == c.fifo;
      var i := 0;
      while i < len
        invariant i <= len
        invariant Valid() && !cs
        invariant sensor == c.(fifo := FifoDrop(c.fifo, i), phase := Streaming)
        invariant forall k :: 0 <= k < i ==> out[k] == FifoByte(c.fifo, k)
        invariant forall k :: len <= k < out.Length ==> out[k] == old(out[k])
        invariant trace == StreamTrace(old(trace), c.fifo, i)
      {
        StreamStepNext(sensor, c.fifo, i);
        var b := Transfer(0);
        out[i] := b;
        i := i + 1;
      }
      assert out[..len] == FifoTake(c.fifo, len);
      StreamTraceClosed(old(trace), c.fifo, len);
      Deselect();
    }

    /** `read_all_axes`: one burst frame [0x0B, 0x0E, six 0x00] from XDATA_L
        on; `data[k]` is the k-th pair of replies assembled low byte first. */
    method ReadAllAxes(data: array<bv16>)
      requires Valid() && cs && 3 <= data.Length
      modifies this, data
      ensures Valid() && cs
      ensures data[0] == Le16(Load(old(sensor.regs), XDataL as nat), Load(old(sensor.regs), XDataH as nat))
      ensures data[1] == Le16(Load(old(sensor.regs), YDataL as nat), Load(old(sensor.regs), YDataH as nat))
      ensures data[2] == Le16(Load(old(sensor.regs), ZDataL as nat), Load(old(sensor.regs), ZDataH as nat))
      ensures data[3..] == old(data[3..])
      ensures trace == old(trace) + Frame([ReadCommand, XDataL, 0, 0, 0, 0, 0, 0],
        [0, 0, Load(old(sensor.regs), XDataL as nat), Load(old(sensor.regs), XDataH as nat),
         Load(old(sensor.regs), YDataL as nat), Load(old(sensor.regs), YDataH as nat),
         Load(old(sensor.regs), ZDataL as nat), Load(old(sensor.regs), ZDataH as nat)])
      ensures sensor.regs == old(sensor.regs) && sensor.fifo == old(sensor.fifo)
    {
      Select();
      ghost var s0 := sensor;
      var r0 := Transfer(ReadCommand);
      ghost var s1 := sensor;
      var r1 := Transfer(XDataL);
      ghost var s2 := sensor;
      var b0, b1, s3 := ReceiveWord(data, 0);
      ghost var s4 := sensor;
      var b2, b3, s5 := ReceiveWord(data, 1);
      ghost var s6 := sensor;
      var b4, b5, s7 := ReceiveWord(data, 2);
      AxesSteps(s0, r0, r1, b0, b1, b2, b3, b4, b5, s1, s2, s3, s4, s5, s6, s7, sensor);
      Frame8(old(trace), ReadCommand, XDataL, 0, 0, 0, 0, 0, 0, r0, r1, b0, b1, b2, b3, b4, b5);
      Deselect();
    }

    /** One 16-bit reading of `read_all_axes` received into `data[k]`, low
        byte first: `data[k] = usi_transfer(0x00)`, then
        `data[k] += usi_transfer(0x00) << 8`. No other element changes. */
    method ReceiveWord(data: array<bv16>, k: nat) returns (lo: bv8, hi: bv8, ghost mid: Chip)
      requires Valid() && !cs && k < data.Length
      modifies this, data
      ensures Valid() && !cs
      ensures data[k] == Le16(lo, hi)
      ensures forall j :: 0 <= j < data.Length && j != k ==> data[j] == old(data[j])
      ensures trace == old(trace) + [Tx(0, lo)] + [Tx(0, hi)]
      ensures Exchange(old(sensor), 0) == Shift(lo, mid) && Exchange(mid, 0) == Shift(hi, sensor)
    {
      lo := Transfer(0);
      mid := sensor;
      data[k] := lo as bv16;
      hi := Transfer(0);
      data[k] := data[k] + ((hi as bv16) << 8);
      AddHighByte(lo, hi);
    }

    /** `read_all_axes_short`: one burst frame [0x0B, 0x08, three 0x00];
        `data[k]` is the k-th reply after the header. */
    method ReadAllAxesShort(data: array<bv8>)
      requires Valid() && cs && 3 <= data.Length
      modifies this, data
      ensures Valid() && cs
      ensures data[0] == Load(old(sensor.regs), XData as nat)
      ensures data[1] == Load(old(sensor.regs), YData as nat)
      ensures data[2] == Load(old(sensor.regs), ZData as nat)
      ensures data[3..] == old(data[3..])
      ensures trace == old(trace) + Frame([ReadCommand, XData, 0, 0, 0], [0, 0, data[0], data[1], data[2]])
      ensures sensor.regs == old(sensor.regs) && sensor.fifo == old(sensor.fifo)
    {
      Select();
      ghost var s0 := sensor;
      var r0 := Transfer(ReadCommand);
      ghost var s1 := sensor;
      var r1 := Transfer(XData);
      ghost var s2 := sensor;
      data[0] := Transfer(0);
      ghost var s3 := sensor;
      data[1] := Transfer(0);
      ghost var s4 := sensor;
      data[2] := Transfer(0);
      ShortAxesSteps(s0, r0, r1, data[0], data[1], data[2], s1, s2, s3, s4, sensor);
      Frame5(old(trace), ReadCommand, XData, 0, 0, 0, r0, r1, data[0], data[1], data[2]);
      Deselect();
    }

    /** `read_axis`: the 12-bit reading of the selected axis (Z for an unknown
        selector), low byte first, as a signed `int16_t`. */
    method ReadAxis(axis: int) returns (v: int)
      requires Valid() && cs
      modifies this
      ensures Valid() && cs
      ensures var reg := AxisRegister(axis) as nat;
        v == Signed16(Le16(Load(old(sensor.regs), reg), Load(old(sensor.regs), reg + 1)))
      ensures var reg := AxisRegister(axis);
        trace == old(trace) + Frame([ReadCommand, reg, 0, 0],
          [0, 0, Load(old(sensor.regs), reg as nat), Load(old(sensor.regs), reg as nat + 1)])
      ensures sensor.regs == old(sensor.regs) && sensor.fifo == old(sensor.fifo)
    {
      var raw := ReadReg16(AxisRegister(axis));
      v := Signed16(raw);
    }

    /** `read_axis_short`: the 8-bit reading of the selected axis (X for an
        unknown selector) as a signed `int8_t`. */
    method ReadAxisShort(axis: int) returns (v: int)
      requires Valid() && cs
      modifies this
      ensures Valid() && cs
      ensures v == Signed8(Load(old(sensor.regs), ShortAxisRegister(axis) as nat))
      ensures trace == old(trace) + Frame([ReadCommand, ShortAxisRegister(axis), 0],
        [0, 0, Load(old(sensor.regs), ShortAxisRegister(axis) as nat)])
      ensures sensor.regs == old(sensor.regs) && sensor.fifo == old(sensor.fifo)
    {
      var raw := ReadReg(ShortAxisRegister(axis));
      v := Signed8(raw);
    }

    /** `read_temp`: the 12-bit temperature reading in TEMP_L/TEMP_H as a
        signed `int16_t`. */
    method ReadTemp() returns (v: int)
      requires Valid() && cs
      modifies this
      ensures Valid() && cs
      ensures v == Signed16(Le16(Load(old(sensor.regs), TempL as nat), Load(old(sensor.regs), TempH as nat)))
      ensures trace == old(trace) + Frame([ReadCommand, TempL, 0, 0],
        [0, 0, Load(old(sensor.regs), TempL as nat), Load(old(sensor.regs), TempH as nat)])
      ensures sensor.regs == old(sensor.regs) && sensor.fifo == old(sensor.fifo)
    {
      var raw := ReadReg16(TempL);
      v := Signed16(raw);
    }

    /** `config_linkloop`: ACT_INACT_CTL read, its bits 4-7 replaced by the
        mode, and written back. */
    method ConfigLinkloop(mode: bv8)
      requires Valid() && cs
      modifies this
      ensures Valid() && cs
      ensures var cur := Load(old(sensor.regs), ActInactCtl as nat);
        && sensor.regs == Store(old(sensor.regs), ActInactCtl as nat, WithLinkloop(cur, mode))
        && trace == old(trace) + Frame([ReadCommand, ActInactCtl, 0], [0, 0, cur])
                              + Frame([WriteCommand, ActInactCtl, WithLinkloop(cur, mode)], [0, 0, 0])
      ensures sensor.fifo == old(sensor.fifo)
    {
      var cur := ReadReg(ActInactCtl);
      cur := WithLinkloop(cur, mode);
      WriteReg(ActInactCtl, cur);
    }

    /** `config_measure_mode`: POWER_CTL read, its bits 0-1 replaced by the
        mode, and written back. */
    method ConfigMeasureMode(mode: bv8)
      requires Valid() && cs
      modifies this
      ensures Valid() && cs
      ensures var cur := Load(old(sensor.regs), PowerCtl as nat);
        && sensor.regs == Store(old(sensor.regs), PowerCtl as nat, WithMeasureMode(cur, mode))
        && trace == old(trace) + Frame([ReadCommand, PowerCtl, 0], [0, 0, cur])
                              + Frame([WriteCommand, PowerCtl, WithMeasureMode(cur, mode)], [0, 0, 0])
      ensures sensor.fifo == old(sensor.fifo)
    {
      var cur := ReadReg(PowerCtl);
      cur := WithMeasureMode(cur, mode);
      WriteReg(PowerCtl, cur);
    }

    /** `config_range`: FILTER_CTL read, its bits 6-7 replaced by the range,
        and written back. */
    method ConfigRange(range: bv8)
      requires Valid() && cs
      modifies this
      ensures Valid() && cs
      ensures var cur := Load(old(sensor.regs), FilterCtl as nat);
        && sensor.regs == Store(old(sensor.regs), FilterCtl as nat, WithRange(cur, range))
        && trace == old(trace) + Frame([ReadCommand, FilterCtl, 0], [0, 0, cur])
                              + Frame([WriteCommand, FilterCtl, WithRange(cur, range)], [0, 0, 0])
      ensures sensor.fifo == old(sensor.fifo)
    {
      var cur := ReadReg(FilterCtl);
      cur := WithRange(cur, range);
      WriteReg(FilterCtl, cur);
    }

    /** `config_odr`: FILTER_CTL read, its bits 0-2 replaced by the output
        data rate, and written back. */
    method ConfigOdr(odr: bv8)
      requires Valid() && cs
      modifies this
      ensures Valid() && cs
      ensures var cur := Load(old(sensor.regs), FilterCtl as nat);
        && sensor.regs == Store(old(sensor.regs), FilterCtl as nat, WithOdr(cur, odr))
        && trace == old(trace) + Frame([ReadCommand, FilterCtl, 0], [0, 0, cur])
                              + Frame([WriteCommand, FilterCtl, WithOdr(cur, odr)], [0, 0, 0])
      ensures sensor.fifo == old(sensor.fifo)
    {
      var cur := ReadReg(FilterCtl);
      cur := WithOdr(cur, odr);
      WriteReg(FilterCtl, cur);
    }

    /** The register write of `config_int1`: the interrupt sources routed to
        INT1 go to INTMAP1 as given. */
    method ConfigInt1(source: bv8)
      requires Valid() && cs
      modifies this
      ensures Valid() && cs
      ensures trace == old(trace) + Frame([WriteCommand, IntMap1, source], [0, 0, 0])
      ensures sensor.regs == Store(old(sensor.regs), IntMap1 as nat, source)
      ensures sensor.fifo == old(sensor.fifo)
    {
      WriteReg(IntMap1, source);
    }

    /** The register write of `config_int2`, to INTMAP2. */
    method ConfigInt2(source: bv8)
      requires Valid() && cs
      modifies this
      ensures Valid() && cs
      ensures trace == old(trace) + Frame([WriteCommand, IntMap2, source], [0, 0, 0])
      ensures sensor.regs == Store(old(sensor.regs), IntMap2 as nat, source)
      ensures sensor.fifo == old(sensor.fifo)
    {
      WriteReg(IntMap2, source);
    }

    /** `config_act_int`: the 16-bit threshold to THRESH_ACT_L/H, the time to
        TIME_ACT, then ACT_EN and ACT_REF ORed into ACT_INACT_CTL: four frames. */
    method ConfigActInt(thresh: bv16, time: bv8)
      requires Valid() && cs
      modifies this
      ensures Valid() && cs
      ensures sensor.regs == ActivityConfigured(old(sensor.regs), thresh, time)
      ensures sensor.fifo == old(sensor.fifo)
      ensures var cur := Load(old(sensor.regs), ActInactCtl as nat);
        trace == old(trace)
          + Frame([WriteCommand, ThreshActL, LoByte(thresh), HiByte(thresh)], [0, 0, 0, 0])
          + Frame([WriteCommand, TimeAct, time], [0, 0, 0])
          + Frame([ReadCommand, ActInactCtl, 0], [0, 0, cur])
          + Frame([WriteCommand, ActInactCtl, WithActivityEnabled(cur)], [0, 0, 0])
    {
      ActivityControlRead(sensor.regs, thresh, time);
      WriteReg16(ThreshActL, thresh);
      WriteReg(TimeAct, time);
      var cur := ReadReg(ActInactCtl);
      cur := WithActivityEnabled(cur);
      WriteReg(ActInactCtl, cur);
    }

    /** `config_inact_int`: the 16-bit threshold to THRESH_INACT_L/H, the
        16-bit time to TIME_INACT_L/H, then INACT_EN and INACT_REF ORed into
        ACT_INACT_CTL: four frames. */
    method ConfigInactInt(thresh: bv16, time: bv16)
      requires Valid() && cs
      modifies this
      ensures Valid() && cs
      ensures sensor.regs == InactivityConfigured(old(sensor.regs), thresh, time)
      ensures sensor.fifo == old(sensor.fifo)
      ensures var cur := Load(old(sensor.regs), ActInactCtl as nat);
        trace == old(trace)
          + Frame([WriteCommand, ThreshInactL, LoByte(thresh), HiByte(thresh)], [0, 0, 0, 0])
          + Frame([WriteCommand, TimeInactL, LoByte(time), HiByte(time)], [0, 0, 0, 0])
          + Frame([ReadCommand, ActInactCtl, 0], [0, 0, cur])
          + Frame([WriteCommand, ActInactCtl, WithInactivityEnabled(cur)], [0, 0, 0])
    {
      InactivityControlRead(sensor.regs, thresh, time);
      WriteReg16(ThreshInactL, thresh);
      WriteReg16(TimeInactL, time);
      var cur := ReadReg(ActInactCtl);
      cur := WithInactivityEnabled(cur);
      WriteReg(ActInactCtl, cur);
    }

    /** The bus part of `adxl362_begin`: chip select driven high, then the
        soft-reset frame [0x0A, 0x1F, 0x52]. Chip select may be at either
        level on entry. */
    method Begin()
      requires Valid()
      modifies this
      ensures Valid() && cs
      ensures trace == old(trace) + [CsHigh] + Frame([WriteCommand, SoftReset, SoftResetCode], [0, 0, 0])
      ensures trace == old(trace) + [CsHigh, CsLow, Tx(0x0A, 0), Tx(0x1F, 0), Tx(0x52, 0), CsHigh]
      ensures sensor.regs == Store(old(sensor.regs), SoftReset as nat, SoftResetCode)
      ensures sensor.fifo == old(sensor.fifo)
    {
      Deselect();
      WriteReg(SoftReset, SoftResetCode);
      FrameEvents3(WriteCommand, SoftReset, SoftResetCode, 0, 0, 0);
      Append(old(trace), [CsHigh], Frame([WriteCommand, SoftReset, SoftResetCode], [0, 0, 0]));
      assert [CsHigh] + [CsLow, Tx(0x0A, 0), Tx(0x1F, 0), Tx(0x52, 0), CsHigh]
          == [CsHigh, CsLow, Tx(0x0A, 0), Tx(0x1F, 0), Tx(0x52, 0), CsHigh];
    }
  }
}
