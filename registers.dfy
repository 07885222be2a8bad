/** Command bytes, register addresses and bit positions of the ADXL362, as the
    driver's header defines them (firmware/adxl362.h). Only the constants the
    register-access layer uses are listed. */
module Registers {

  /** Number of registers in the device's address space (0x00 .. 0x3F). */
  const RegisterCount: nat := 64

  // Bus commands: the first byte of every framed exchange.
  const WriteCommand: bv8 := 0x0A
  const ReadCommand: bv8 := 0x0B
  const FifoCommand: bv8 := 0x0D

  // 8-bit, reduced resolution data registers.
  const XData: bv8 := 0x08
  const YData: bv8 := 0x09
  const ZData: bv8 := 0x0A

  // 12-bit sign-extended data registers, low byte first.
  const XDataL: bv8 := 0x0E
  const XDataH: bv8 := 0x0F
  const YDataL: bv8 := 0x10
  const YDataH: bv8 := 0x11
  const ZDataL: bv8 := 0x12
  const ZDataH: bv8 := 0x13
  const TempL: bv8 := 0x14
  const TempH: bv8 := 0x15

  /** Writing 0x52 ('R') here resets the device. */
  const SoftReset: bv8 := 0x1F
  const SoftResetCode: bv8 := 0x52

  // Activity / inactivity thresholds and times.
  const ThreshActL: bv8 := 0x20
  const ThreshActH: bv8 := 0x21
  const TimeAct: bv8 := 0x22
  const ThreshInactL: bv8 := 0x23
  const ThreshInactH: bv8 := 0x24
  const TimeInactL: bv8 := 0x25
  const TimeInactH: bv8 := 0x26

  // Activity / inactivity control register and its bit positions.
  const ActInactCtl: bv8 := 0x27
  const Linkloop: nat := 4   // 2-bit field
  const InactRef: nat := 3
  const InactEn: nat := 2
  const ActRef: nat := 1
  const ActEn: nat := 0

  // Interrupt pin function maps.
  const IntMap1: bv8 := 0x2A
  const IntMap2: bv8 := 0x2B

  // Filter control register and its fields.
  const FilterCtl: bv8 := 0x2C
  const Range: nat := 6      // 2-bit field
  const Odr: nat := 0        // 3-bit field

  // Power control register and its measurement-mode field.
  const PowerCtl: bv8 := 0x2D
  const Measure: nat := 0    // 2-bit field

  // Axis selectors accepted by the single-axis readers.
  const AxisX: int := 0
  const AxisY: int := 1
  const AxisZ: int := 2
}
