/** What each frame the driver sends does to the simulated sensor: the bytes
    it answers with and the state it is left in. Each lemma takes the frame's
    bytes as written by the driver and is proved from the device's run
    lemmas. */
module Protocol {
  import opened Registers
  import opened Words
  import opened SimDevice

  /** A `write_reg` frame [0x0A, reg, value]: the sensor answers zeros, stores
      the value at `reg` and leaves its FIFO alone. */
  lemma WriteRegFrame(c: Chip, reg: bv8, value: bv8, r0: bv8, r1: bv8, r2: bv8, now: Chip)
    requires c.phase == Command
    requires Run(c, [WriteCommand, reg, value]) == Reply([r0, r1, r2], now)
    ensures r0 == 0 && r1 == 0 && r2 == 0
    ensures now.regs == Store(c.regs, reg as nat, value) && now.fifo == c.fifo
  {
    RunWrite(c, reg, [value]);
    WriteOne(c.regs, reg as nat, value);
    assert [WriteCommand, reg] + [value] == [WriteCommand, reg, value];
    assert [0, 0] + Zeros(1) == [0, 0, 0];
    var r := [r0, r1, r2];
    assert r[0] == r0 && r[1] == r1 && r[2] == r2;
  }

  /** A `write_reg16` frame [0x0A, reg, lo, hi]: the sensor answers zeros and
      stores `lo` at `reg` and `hi` at the next address. */
  lemma WriteReg16Frame(c: Chip, reg: bv8, lo: bv8, hi: bv8, r0: bv8, r1: bv8, r2: bv8, r3: bv8, now: Chip)
    requires c.phase == Command
    requires Run(c, [WriteCommand, reg, lo, hi]) == Reply([r0, r1, r2, r3], now)
    ensures r0 == 0 && r1 == 0 && r2 == 0 && r3 == 0
    ensures now.regs == WriteBurst(c.regs, reg as nat, [lo, hi]) && now.fifo == c.fifo
  {
    RunWrite(c, reg, [lo, hi]);
    assert [WriteCommand, reg] + [lo, hi] == [WriteCommand, reg, lo, hi];
    assert [0, 0] + Zeros(2) == [0, 0, 0, 0];
    var r := [r0, r1, r2, r3];
    assert r[0] == r0 && r[1] == r1 && r[2] == r2 && r[3] == r3;
  }

  /** A burst read of `n` dummy bytes from `at`: the replies after the two
      header bytes are the `n` registers from `at` on. */
  lemma ReadBurstFrame(c: Chip, at: bv8, n: nat, sent: seq<bv8>, rcvd: seq<bv8>, now: Chip)
    requires c.phase == Command
    requires sent == [ReadCommand, at] + Zeros(n)
    requires Run(c, sent) == Reply(rcvd, now)
    ensures |rcvd| == n + 2 && rcvd[0] == 0 && rcvd[1] == 0
    ensures forall k :: 2 <= k < n + 2 ==> rcvd[k] == Load(c.regs, at as nat + k - 2)
    ensures now.regs == c.regs && now.fifo == c.fifo
  {
    RunRead(c, at, n);
    assert rcvd == [0, 0] + ReadBurst(c.regs, at as nat, n);
    forall k | 2 <= k < n + 2
      ensures rcvd[k] == Load(c.regs, at as nat + k - 2)
    {
      assert rcvd[k] == ReadBurst(c.regs, at as nat, n)[k - 2];
    }
  }

  /** A `read_reg` frame [0x0B, reg, 0x00]: the third reply is the register at
      `reg`; registers and FIFO are unchanged. */
  lemma ReadRegFrame(c: Chip, reg: bv8, r0: bv8, r1: bv8, r2: bv8, now: Chip)
    requires c.phase == Command
    requires Run(c, [ReadCommand, reg, 0]) == Reply([r0, r1, r2], now)
    ensures r0 == 0 && r1 == 0 && r2 == Load(c.regs, reg as nat)
    ensures now.regs == c.regs && now.fifo == c.fifo
  {
    var r := [r0, r1, r2];
    assert [ReadCommand, reg, 0] == [ReadCommand, reg] + Zeros(1);
    ReadBurstFrame(c, reg, 1, [ReadCommand, reg, 0], r, now);
    assert r[0] == r0 && r[1] == r1 && r[2] == r2;
  }

  /** A `read_reg16` frame [0x0B, reg, 0x00, 0x00]: the third and fourth
      replies are the registers at `reg` and `reg + 1`. */
  lemma ReadReg16Frame(c: Chip, reg: bv8, r0: bv8, r1: bv8, r2: bv8, r3: bv8, now: Chip)
    requires c.phase == Command
    requires Run(c, [ReadCommand, reg, 0, 0]) == Reply([r0, r1, r2, r3], now)
    ensures r0 == 0 && r1 == 0
    ensures r2 == Load(c.regs, reg as nat) && r3 == Load(c.regs, reg as nat + 1)
    ensures now.regs == c.regs && now.fifo == c.fifo
  {
    var r := [r0, r1, r2, r3];
    assert [ReadCommand, reg, 0, 0] == [ReadCommand, reg] + Zeros(2);
    ReadBurstFrame(c, reg, 2, [ReadCommand, reg, 0, 0], r, now);
    assert r[0] == r0 && r[1] == r1 && r[2] == r2 && r[3] == r3;
  }

  /** The `read_all_axes_short` frame [0x0B, 0x08, three 0x00]. */
  lemma ShortAxesFrame(c: Chip, r: seq<bv8>, now: Chip)
    requires c.phase == Command
    requires Run(c, [ReadCommand, XData, 0, 0, 0]) == Reply(r, now)
    ensures |r| == 5 && r[0] == 0 && r[1] == 0
    ensures r[2] == Load(c.regs, XData as nat) && r[3] == Load(c.regs, YData as nat) && r[4] == Load(c.regs, ZData as nat)
    ensures now.regs == c.regs && now.fifo == c.fifo
  {
    assert [ReadCommand, XData, 0, 0, 0] == [ReadCommand, XData] + Zeros(3);
    ReadBurstFrame(c, XData, 3, [ReadCommand, XData, 0, 0, 0], r, now);
  }

  /** The `read_all_axes` frame [0x0B, 0x0E, six 0x00]. */
  lemma AxesFrame(c: Chip, r: seq<bv8>, now: Chip)
    requires c.phase == Command
    requires Run(c, [ReadCommand, XDataL, 0, 0, 0, 0, 0, 0]) == Reply(r, now)
    ensures |r| == 8 && r[0] == 0 && r[1] == 0
    ensures r[2] == Load(c.regs, XDataL as nat) && r[3] == Load(c.regs, XDataH as nat)
    ensures r[4] == Load(c.regs, YDataL as nat) && r[5] == Load(c.regs, YDataH as nat)
    ensures r[6] == Load(c.regs, ZDataL as nat) && r[7] == Load(c.regs, ZDataH as nat)
    ensures now.regs == c.regs && now.fifo == c.fifo
  {
    assert [ReadCommand, XDataL, 0, 0, 0, 0, 0, 0] == [ReadCommand, XDataL] + Zeros(6);
    ReadBurstFrame(c, XDataL, 6, [ReadCommand, XDataL, 0, 0, 0, 0, 0, 0], r, now);
  }

  /** A `read_fifo` frame [0x0D, `n` 0x00]: after the command reply the sensor
      streams the first `n` FIFO bytes (zeros once it runs dry), drops them,
      and leaves its registers alone. */
  lemma FifoFrame(c: Chip, n: nat, r: seq<bv8>, now: Chip)
    requires c.phase == Command
    requires Run(c, [FifoCommand] + Zeros(n)) == Reply([0] + r, now)
    ensures r == FifoTake(c.fifo, n)
    ensures now.regs == c.regs && now.fifo == FifoDrop(c.fifo, n)
  {
    RunFifo(c, n);
    assert r == ([0] + r)[1..];
    assert FifoTake(c.fifo, n) == ([0] + FifoTake(c.fifo, n))[1..];
  }

  /** Writing a 16-bit value at an address whose pair fits in the register
      file and reading the pair back, low byte first, gives the value. */
  lemma RoundTrip16(m: seq<bv8>, reg: bv8, v: bv16)
    requires reg as nat + 2 <= |m|
    ensures var w := WriteBurst(m, reg as nat, [LoByte(v), HiByte(v)]);
      Le16(Load(w, reg as nat), Load(w, reg as nat + 1)) == v
  {
    var w := WriteBurst(m, reg as nat, [LoByte(v), HiByte(v)]);
    WriteThenReadBack(m, reg as nat, [LoByte(v), HiByte(v)]);
    assert ReadBurst(w, reg as nat, 2)[0] == Load(w, reg as nat);
    assert ReadBurst(w, reg as nat, 2)[1] == Load(w, reg as nat + 1);
    SplitThenAssemble(v);
  }

  /** The `write_reg` frame exchanged one byte at a time. */
  lemma WriteRegSteps(s0: Chip, reg: bv8, value: bv8, r0: bv8, r1: bv8, r2: bv8, s1: Chip, s2: Chip, s3: Chip)
    requires s0.phase == Command
    requires Exchange(s0, WriteCommand) == Shift(r0, s1) && Exchange(s1, reg) == Shift(r1, s2)
    requires Exchange(s2, value) == Shift(r2, s3)
    ensures r0 == 0 && r1 == 0 && r2 == 0
    ensures s3.regs == Store(s0.regs, reg as nat, value) && s3.fifo == s0.fifo
  {
    ChainedRun([s0, s1, s2, s3], [WriteCommand, reg, value], [r0, r1, r2]);
    WriteRegFrame(s0, reg, value, r0, r1, r2, s3);
  }

  /** The `write_reg16` frame exchanged one byte at a time. */
  lemma WriteReg16Steps(s0: Chip, reg: bv8, lo: bv8, hi: bv8, r0: bv8, r1: bv8, r2: bv8, r3: bv8,
                        s1: Chip, s2: Chip, s3: Chip, s4: Chip)
    requires s0.phase == Command
    requires Exchange(s0, WriteCommand) == Shift(r0, s1) && Exchange(s1, reg) == Shift(r1, s2)
    requires Exchange(s2, lo) == Shift(r2, s3) && Exchange(s3, hi) == Shift(r3, s4)
    ensures r0 == 0 && r1 == 0 && r2 == 0 && r3 == 0
    ensures s4.regs == WriteBurst(s0.regs, reg as nat, [lo, hi]) && s4.fifo == s0.fifo
  {
    ChainedRun([s0, s1, s2, s3, s4], [WriteCommand, reg, lo, hi], [r0, r1, r2, r3]);
    WriteReg16Frame(s0, reg, lo, hi, r0, r1, r2, r3, s4);
  }

  /** The `read_reg` frame exchanged one byte at a time. */
  lemma ReadRegSteps(s0: Chip, reg: bv8, r0: bv8, r1: bv8, r2: bv8, s1: Chip, s2: Chip, s3: Chip)
    requires s0.phase == Command
    requires Exchange(s0, ReadCommand) == Shift(r0, s1) && Exchange(s1, reg) == Shift(r1, s2)
    requires Exchange(s2, 0) == Shift(r2, s3)
    ensures r0 == 0 && r1 == 0 && r2 == Load(s0.regs, reg as nat)
    ensures s3.regs == s0.regs && s3.fifo == s0.fifo
  {
    ChainedRun([s0, s1, s2, s3], [ReadCommand, reg, 0], [r0, r1, r2]);
    ReadRegFrame(s0, reg, r0, r1, r2, s3);
  }

  /** The `read_reg16` frame exchanged one byte at a time. */
  lemma ReadReg16Steps(s0: Chip, reg: bv8, r0: bv8, r1: bv8, r2: bv8, r3: bv8,
                       s1: Chip, s2: Chip, s3: Chip, s4: Chip)
    requires s0.phase == Command
    requires Exchange(s0, ReadCommand) == Shift(r0, s1) && Exchange(s1, reg) == Shift(r1, s2)
    requires Exchange(s2, 0) == Shift(r2, s3) && Exchange(s3, 0) == Shift(r3, s4)
    ensures r0 == 0 && r1 == 0
    ensures r2 == Load(s0.regs, reg as nat) && r3 == Load(s0.regs, reg as nat + 1)
    ensures s4.regs == s0.regs && s4.fifo == s0.fifo
  {
    ChainedRun([s0, s1, s2, s3, s4], [ReadCommand, reg, 0, 0], [r0, r1, r2, r3]);
    ReadReg16Frame(s0, reg, r0, r1, r2, r3, s4);
  }

  /** The `read_all_axes_short` frame exchanged one byte at a time. */
  lemma ShortAxesSteps(s0: Chip, r0: bv8, r1: bv8, x: bv8, y: bv8, z: bv8,
                       s1: Chip, s2: Chip, s3: Chip, s4: Chip, s5: Chip)
    requires s0.phase == Command
    requires Exchange(s0, ReadCommand) == Shift(r0, s1) && Exchange(s1, XData) == Shift(r1, s2)
    requires Exchange(s2, 0) == Shift(x, s3) && Exchange(s3, 0) == Shift(y, s4) && Exchange(s4, 0) == Shift(z, s5)
    ensures r0 == 0 && r1 == 0
    ensures x == Load(s0.regs, XData as nat) && y == Load(s0.regs, YData as nat) && z == Load(s0.regs, ZData as nat)
    ensures s5.regs == s0.regs && s5.fifo == s0.fifo
  {
    ChainedRun([s0, s1, s2, s3, s4, s5], [ReadCommand, XData, 0, 0, 0], [r0, r1, x, y, z]);
    ShortAxesFrame(s0, [r0, r1, x, y, z], s5);
  }

  /** The `read_all_axes` frame exchanged one byte at a time. */
  lemma AxesSteps(s0: Chip, r0: bv8, r1: bv8, x0: bv8, x1: bv8, y0: bv8, y1: bv8, z0: bv8, z1: bv8,
                  s1: Chip, s2: Chip, s3: Chip, s4: Chip, s5: Chip, s6: Chip, s7: Chip, s8: Chip)
    requires s0.phase == Command
    requires Exchange(s0, ReadCommand) == Shift(r0, s1) && Exchange(s1, XDataL) == Shift(r1, s2)
    requires Exchange(s2, 0) == Shift(x0, s3) && Exchange(s3, 0) == Shift(x1, s4)
    requires Exchange(s4, 0) == Shift(y0, s5) && Exchange(s5, 0) == Shift(y1, s6)
    requires Exchange(s6, 0) == Shift(z0, s7) && Exchange(s7, 0) == Shift(z1, s8)
    ensures r0 == 0 && r1 == 0
    ensures x0 == Load(s0.regs, XDataL as nat) && x1 == Load(s0.regs, XDataH as nat)
    ensures y0 == Load(s0.regs, YDataL as nat) && y1 == Load(s0.regs, YDataH as nat)
    ensures z0 == Load(s0.regs, ZDataL as nat) && z1 == Load(s0.regs, ZDataH as nat)
    ensures s8.regs == s0.regs && s8.fifo == s0.fifo
  {
    assert s2 == s0.(phase := Reading(XDataL as nat));
    ReadStep(s2, 0);
    ReadStep(s3, 0);
    ReadStep(s4, 0);
    ReadStep(s5, 0);
    ReadStep(s6, 0);
    ReadStep(s7, 0);
  }
}
