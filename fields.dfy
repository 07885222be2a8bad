/** The read-modify-write updates the configuration writers apply to a control
    register's current value (firmware/adxl362.c:24-50 and 74-90). Each clears
    a fixed mask and ORs in a shifted value, in 8-bit arithmetic: bits shifted
    past bit 7 are lost, as in the C assignment back to a `uint8_t`. No writer
    checks that the value fits its field. */
module Fields {
  import opened Registers

  /** POWER_CTL with the 2-bit measurement mode (bits 0-1) replaced by `mode`
      (`cur &= 0xFC; cur |= mode << MEASURE`). */
  function WithMeasureMode(cur: bv8, mode: bv8): (r: bv8)
    ensures mode < 4 ==> r & 0xFC == cur & 0xFC
    ensures r & 0x03 == mode & 0x03
    ensures r & 0xFC == (cur | mode) & 0xFC
  {
    (cur & 0xFC) | (mode << Measure)
  }

  /** FILTER_CTL with the 2-bit range (bits 6-7) replaced by `range`
      (`cur &= 0x3F; cur |= range << RANGE`). Bits 0-5 are always kept: the
      high bits of an oversized range fall off the top of the byte. */
  function WithRange(cur: bv8, range: bv8): (r: bv8)
    ensures r & 0x3F == cur & 0x3F
    ensures r >> 6 == range & 0x03
  {
    (cur & 0x3F) | (range << Range)
  }

  /** FILTER_CTL with the 3-bit output data rate (bits 0-2) replaced by `odr`
      (`cur &= 0xF8; cur |= odr << ODR`). */
  function WithOdr(cur: bv8, odr: bv8): (r: bv8)
    ensures odr < 8 ==> r & 0xF8 == cur & 0xF8
    ensures r & 0x07 == odr & 0x07
    ensures r & 0xF8 == (cur | odr) & 0xF8
  {
    (cur & 0xF8) | (odr << Odr)
  }

  /** ACT_INACT_CTL with bits 4-7 replaced by the link/loop mode
      (`cur &= 0x0F; cur |= mode << LINKLOOP`). The mask clears all four high
      bits although the field is two bits wide, so bits 6-7 end up holding the
      mode's bits 2-3 (zero for any 2-bit mode). Bits 0-3 are always kept. */
  function WithLinkloop(cur: bv8, mode: bv8): (r: bv8)
    ensures r & 0x0F == cur & 0x0F
    ensures r >> 4 == mode & 0x0F
    ensures mode < 4 ==> r & 0xC0 == 0
  {
    (cur & 0x0F) | (mode << Linkloop)
  }

  /** ACT_INACT_CTL with the activity enable and referenced-mode bits set
      (`cur |= (1 << ACT_EN) | (1 << ACT_REF)`): no bit that was set is cleared. */
  function WithActivityEnabled(cur: bv8): (r: bv8)
    ensures r & cur == cur
    ensures r & 0xFC == cur & 0xFC
    ensures r & 0x03 == 0x03
  {
    cur | ((1 << ActEn) | (1 << ActRef))
  }

  /** ACT_INACT_CTL with the inactivity enable and referenced-mode bits set
      (`cur |= (1 << INACT_EN) | (1 << INACT_REF)`): no bit that was set is cleared. */
  function WithInactivityEnabled(cur: bv8): (r: bv8)
    ensures r & cur == cur
    ensures r & 0xF3 == cur & 0xF3
    ensures r & 0x0C == 0x0C
  {
    cur | ((1 << InactEn) | (1 << InactRef))
  }

  /** Setting the data rate to 3 (100 Hz) in 0b01000101 gives 0b01000011. */
  lemma OdrExample()
    ensures WithOdr(0x45, 3) == 0x43
  {
  }

  /** With no width check, an output data rate of 8 sets EXT_SAMPLE (bit 3). */
  lemma OversizedOdrSetsExtSample(cur: bv8)
    ensures WithOdr(cur, 8) & 0x08 == 0x08
  {
  }

  /** Likewise a measurement mode of 4 sets AUTOSLEEP (bit 2). */
  lemma OversizedModeSetsAutosleep(cur: bv8)
    ensures WithMeasureMode(cur, 4) & 0x04 == 0x04
  {
  }
}
