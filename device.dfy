/** A simulated ADXL362 on the other end of the bus: a file of 64 byte
    registers and a queue of FIFO bytes, driven one exchanged byte at a time.
    Within one chip-select frame the first byte is the command, the second the
    starting address, and every further byte reads or writes the register at
    the current address, which then advances by one (the device's
    auto-increment, on which the driver relies for its low/high register
    pairs, firmware/adxl362.h:97-106). */
module SimDevice {
  import opened Registers
  import opened Framing

  /** Where the device is within the current frame. */
  datatype Phase =
    | Deselected                // chip select high
    | Command                   // next byte is the command
    | Address(write: bool)      // next byte is the start address
    | Writing(at: nat)          // next byte is stored at `at`
    | Reading(at: nat)          // next reply is the register at `at`
    | Streaming                 // replies come from the FIFO
    | Ignoring                  // unknown command: the rest of the frame is ignored

  /** The device: its register file, its FIFO queue, and where it is within the current frame. */
  datatype Chip = Chip(regs: seq<bv8>, fifo: seq<bv8>, phase: Phase)

  /** The reply to one exchanged byte and the device state after it. */
  datatype Shift = Shift(out: bv8, next: Chip)

  /** The replies to a sequence of exchanged bytes and the state after them. */
  datatype Reply = Reply(miso: seq<bv8>, after: Chip)

  /** `n` dummy bytes, as the driver clocks out to read. */
  function Zeros(n: nat): seq<bv8>
  {
    seq(n, i => 0)
  }

  /** The register at address `at`; addresses past the file read as zero. */
  function Load(m: seq<bv8>, at: nat): bv8
  {
    if at < |m| then m[at] else 0
  }

  /** Storing `b` at address `at`; addresses past the file are ignored. */
  function Store(m: seq<bv8>, at: nat, b: bv8): seq<bv8>
  {
    if at < |m| then m[at := b] else m
  }

  /** The device's response to one byte exchanged while it is selected. */
  function Exchange(c: Chip, b: bv8): (s: Shift)
    ensures |s.next.regs| == |c.regs|
  {
    match c.phase
    case Command =>
      var next :=
        if b == WriteCommand then Address(true)
        else if b == ReadCommand then Address(false)
        else if b == FifoCommand then Streaming
        else Ignoring;
      Shift(0, c.(phase := next))
    case Address(write) =>
      Shift(0, c.(phase := if write then Writing(b as nat) else Reading(b as nat)))
    case Writing(at) =>
      Shift(0, c.(regs := Store(c.regs, at, b), phase := Writing(at + 1)))
    case Reading(at) =>
      Shift(Load(c.regs, at), c.(phase := Reading(at + 1)))
    case Streaming =>
      if c.fifo == [] then Shift(0, c) else Shift(c.fifo[0], c.(fifo := c.fifo[1..]))
    case Ignoring => Shift(0, c)
    case Deselected => Shift(0, c)
  }

  /** Exchanging a sequence of bytes, one after another. */
  function Run(c: Chip, mosi: seq<bv8>): (r: Reply)
    ensures |r.miso| == |mosi|
    decreases |mosi|
  {
    if mosi == [] then Reply([], c)
    else
      var before := Run(c, mosi[..|mosi| - 1]);
      var s := Exchange(before.after, mosi[|mosi| - 1]);
      Reply(before.miso + [s.out], s.next)
  }

  /** The register file after `data` is written starting at address `at`
      (reference definition: each written address holds its byte, every other
      register is unchanged). */
  function WriteBurst(m: seq<bv8>, at: nat, data: seq<bv8>): seq<bv8>
  {
    seq(|m|, j requires 0 <= j < |m| => if at <= j < at + |data| then data[j - at] else m[j])
  }

  /** The `n` registers starting at address `at`. */
  function ReadBurst(m: seq<bv8>, at: nat, n: nat): seq<bv8>
  {
    seq(n, i requires 0 <= i < n => Load(m, at + i))
  }

  /** The `k`-th byte streamed out of the FIFO; an exhausted FIFO gives zeros. */
  function FifoByte(q: seq<bv8>, k: nat): bv8
  {
    if k < |q| then q[k] else 0
  }

  /** The first `n` bytes streamed out of the FIFO. */
  function FifoTake(q: seq<bv8>, n: nat): seq<bv8>
  {
    seq(n, i requires 0 <= i < n => FifoByte(q, i))
  }

  /** The FIFO after `n` bytes have been streamed out. */
  function FifoDrop(q: seq<bv8>, n: nat): seq<bv8>
  {
    if n <= |q| then q[n..] else []
  }

  /** Extending a run by one byte is one more exchange. */
  lemma RunSnoc(c: Chip, mosi: seq<bv8>, b: bv8)
    ensures Run(c, mosi + [b]) ==
      Reply(Run(c, mosi).miso + [Exchange(Run(c, mosi).after, b).out], Exchange(Run(c, mosi).after, b).next)
  {
    assert (mosi + [b])[..|mosi|] == mosi;
  }

  /** A run extended by one exchange whose outcome is known. */
  lemma RunThen(start: Chip, mosi: seq<bv8>, miso: seq<bv8>, c: Chip, b: bv8, r: bv8, next: Chip)
    requires Run(start, mosi) == Reply(miso, c) && Exchange(c, b) == Shift(r, next)
    ensures Run(start, mosi + [b]) == Reply(miso + [r], next)
  {
    RunSnoc(start, mosi, b);
  }

  /** One more dummy byte. */
  lemma ZerosSnoc(n: nat)
    requires n > 0
    ensures Zeros(n - 1) + [0] == Zeros(n)
  {
  }

  /** Writing one more byte extends a burst by one register store. */
  lemma WriteBurstSnoc(m: seq<bv8>, at: nat, data: seq<bv8>)
    requires data != []
    ensures Store(WriteBurst(m, at, data[..|data| - 1]), at + |data| - 1, data[|data| - 1]) == WriteBurst(m, at, data)
  {
  }

  /** Reading one more byte extends a burst by the next register. */
  lemma ReadBurstSnoc(m: seq<bv8>, at: nat, n: nat)
    requires n > 0
    ensures ReadBurst(m, at, n - 1) + [Load(m, at + n - 1)] == ReadBurst(m, at, n)
  {
  }

  /** Exchanges chained state to state: the `k`-th byte sent takes
      `states[k]` to `states[k + 1]` with reply `miso[k]`. */
  ghost predicate Chained(states: seq<Chip>, mosi: seq<bv8>, miso: seq<bv8>)
  {
    && |states| == |mosi| + 1 && |miso| == |mosi|
    && forall k :: 0 <= k < |mosi| ==> Exchange(states[k], mosi[k]) == Shift(miso[k], states[k + 1])
  }

  /** Chained exchanges are a run from the first state to the last. */
  lemma {:induction false} ChainedRun(states: seq<Chip>, mosi: seq<bv8>, miso: seq<bv8>)
    requires Chained(states, mosi, miso)
    ensures Run(states[0], mosi) == Reply(miso, states[|mosi|])
    decreases |mosi|
  {
    if mosi != [] {
      var n := |mosi| - 1;
      ChainedRun(states[..n + 1], mosi[..n], miso[..n]);
      assert miso == miso[..n] + [miso[n]];
    }
  }

  /** One more byte taken from the FIFO. */
  lemma FifoTakeSnoc(q: seq<bv8>, n: nat)
    requires n > 0
    ensures FifoTake(q, n - 1) + [FifoByte(q, n - 1)] == FifoTake(q, n)
  {
  }

  /** Streaming one more byte takes the FIFO's next byte (zero once it is empty) and drops it. */
  lemma FifoSnoc(q: seq<bv8>, n: nat)
    ensures FifoTake(q, n) + [if FifoDrop(q, n) == [] then 0 else FifoDrop(q, n)[0]] == FifoTake(q, n + 1)
    ensures FifoDrop(q, n + 1) == if FifoDrop(q, n) == [] then [] else FifoDrop(q, n)[1..]
  {
    if n < |q| {
      assert FifoDrop(q, n)[0] == q[n];
    }
  }

  /** While reading, every exchanged byte is answered with the current
      register and moves to the next address. */
  lemma ReadStep(c: Chip, b: bv8)
    requires c.phase.Reading?
    ensures Exchange(c, b) == Shift(Load(c.regs, c.phase.at), c.(phase := Reading(c.phase.at + 1)))
  {
  }

  /** While writing, every exchanged byte is stored at the current address
      and moves to the next; the reply is zero. */
  lemma WriteStep(c: Chip, b: bv8)
    requires c.phase.Writing?
    ensures Exchange(c, b) == Shift(0, c.(regs := Store(c.regs, c.phase.at, b), phase := Writing(c.phase.at + 1)))
  {
  }

  /** While streaming, every exchanged byte is answered with the FIFO's head, which is dropped. */
  lemma StreamStep(c: Chip, b: bv8)
    requires c.phase == Streaming
    ensures Exchange(c, b) ==
      if c.fifo == [] then Shift(0, c) else Shift(c.fifo[0], c.(fifo := c.fifo[1..]))
  {
  }

  /** The command byte and the address byte of a register frame: both are
      answered with zero and leave the device at the given address. */
  lemma RunHeader(c: Chip, cmd: bv8, at: bv8)
    requires c.phase == Command
    requires cmd == WriteCommand || cmd == ReadCommand
    ensures Run(c, [cmd, at]) ==
      Reply([0, 0], c.(phase := if cmd == WriteCommand then Writing(at as nat) else Reading(at as nat)))
  {
    var c1 := c.(phase := Address(cmd == WriteCommand));
    assert [] + [cmd] == [cmd];
    RunSnoc(c, [], cmd);
    assert Run(c, [cmd]) == Reply([0], c1);
    assert [cmd] + [at] == [cmd, at];
    RunSnoc(c, [cmd], at);
  }

  /** Splitting off the last byte of the second part of a concatenation. */
  lemma LastSplit(p: seq<bv8>, q: seq<bv8>)
    requires q != []
    ensures p + q == (p + q[..|q| - 1]) + [q[|q| - 1]]
  {
  }

  /** Appending a byte after a concatenation appends it to the second part. */
  lemma SnocAssoc(a: seq<bv8>, b: seq<bv8>, x: bv8)
    ensures (a + b) + [x] == a + (b + [x])
  {
  }

  /** Running two byte sequences one after the other is running their concatenation. */
  lemma {:induction false} RunAppend(c: Chip, p: seq<bv8>, q: seq<bv8>)
    ensures Run(c, p + q) == Reply(Run(c, p).miso + Run(Run(c, p).after, q).miso, Run(Run(c, p).after, q).after)
    decreases |q|
  {
    if q == [] {
      assert p + q == p;
    } else {
      var n := |q| - 1;
      var r := Run(c, p);
      var r1 := Run(r.after, q[..n]);
      RunAppend(c, p, q[..n]);
      var s := Exchange(r1.after, q[n]);
      LastSplit(p, q);
      RunSnoc(c, p + q[..n], q[n]);
      assert Run(c, p + q) == Reply((r.miso + r1.miso) + [s.out], s.next);
      LastSplit([], q);
      assert [] + q == q && [] + q[..n] == q[..n];
      RunSnoc(r.after, q[..n], q[n]);
      assert Run(r.after, q) == Reply(r1.miso + [s.out], s.next);
      SnocAssoc(r.miso, r1.miso, s.out);
    }
  }

  /** Once writing, every byte lands in the next register and is answered with zero. */
  lemma {:induction false} RunWriting(m: seq<bv8>, q: seq<bv8>, at: nat, data: seq<bv8>)
    ensures Run(Chip(m, q, Writing(at)), data) ==
      Reply(Zeros(|data|), Chip(WriteBurst(m, at, data), q, Writing(at + |data|)))
    decreases |data|
  {
    var c := Chip(m, q, Writing(at));
    if data == [] {
      assert WriteBurst(m, at, data) == m;
    } else {
      var n := |data| - 1;
      var before := Chip(WriteBurst(m, at, data[..n]), q, Writing(at + n));
      var after := Chip(WriteBurst(m, at, data), q, Writing(at + n + 1));
      assert Run(c, data[..n]) == Reply(Zeros(n), before) by {
        RunWriting(m, q, at, data[..n]);
      }
      assert Exchange(before, data[n]) == Shift(0, after) by {
        WriteStep(before, data[n]);
        WriteBurstSnoc(m, at, data);
      }
      RunThen(c, data[..n], Zeros(n), before, data[n], 0, after);
      FrontLast(data);
      ZerosSnoc(|data|);
    }
  }


  /** What a run of writes leaves behind: zero replies, the burst stored, the FIFO untouched. */
  lemma RunWritingBytes(m: seq<bv8>, q: seq<bv8>, at: nat, data: seq<bv8>)
    ensures var r := Run(Chip(m, q, Writing(at)), data);
      r.miso == Zeros(|data|) && r.after.regs == WriteBurst(m, at, data) && r.after.fifo == q
  {
    RunWriting(m, q, at, data);
  }

  /** Once reading, every exchanged byte is answered with the next register. */
  lemma {:induction false} RunReading(c: Chip, n: nat)
    requires c.phase.Reading?
    ensures Run(c, Zeros(n)) == Reply(ReadBurst(c.regs, c.phase.at, n), c.(phase := Reading(c.phase.at + n)))
    decreases n
  {
    var at := c.phase.at;
    if n == 0 {
      assert ReadBurst(c.regs, at, n) == [];
    } else {
      var before := c.(phase := Reading(at + n - 1));
      assert Run(c, Zeros(n - 1)) == Reply(ReadBurst(c.regs, at, n - 1), before) by {
        RunReading(c, n - 1);
      }
      assert Exchange(before, 0) == Shift(Load(c.regs, at + n - 1), c.(phase := Reading(at + n))) by {
        ReadStep(before, 0);
      }
      RunThen(c, Zeros(n - 1), ReadBurst(c.regs, at, n - 1), before, 0, Load(c.regs, at + n - 1), c.(phase := Reading(at + n)));
      ZerosSnoc(n);
      ReadBurstSnoc(c.regs, at, n);
    }
  }


  /** A write frame: after the command and the address every byte lands in the
      next register, the device replies with zeros, and the FIFO is untouched. */
  lemma RunWrite(c: Chip, at: bv8, data: seq<bv8>)
    requires c.phase == Command
    ensures var r := Run(c, [WriteCommand, at] + data);
      && r.miso == [0, 0] + Zeros(|data|)
      && r.after.regs == WriteBurst(c.regs, at as nat, data) && r.after.fifo == c.fifo
  {
    RunHeader(c, WriteCommand, at);
    RunAppend(c, [WriteCommand, at], data);
    RunWritingBytes(c.regs, c.fifo, at as nat, data);
  }


  /** A read frame: after the command and the address the device replies with
      consecutive registers and changes nothing. */
  lemma RunRead(c: Chip, at: bv8, n: nat)
    requires c.phase == Command
    ensures Run(c, [ReadCommand, at] + Zeros(n)) ==
      Reply([0, 0] + ReadBurst(c.regs, at as nat, n), c.(phase := Reading(at as nat + n)))
  {
    RunHeader(c, ReadCommand, at);
    RunAppend(c, [ReadCommand, at], Zeros(n));
    RunReading(c.(phase := Reading(at as nat)), n);
  }

  /** Once streaming, every exchanged byte is answered with the next FIFO byte. */
  lemma {:induction false} RunStreaming(c: Chip, n: nat)
    requires c.phase == Streaming
    ensures Run(c, Zeros(n)) == Reply(FifoTake(c.fifo, n), c.(fifo := FifoDrop(c.fifo, n)))
    decreases n
  {
    if n > 0 {
      var before := c.(fifo := FifoDrop(c.fifo, n - 1));
      var after := c.(fifo := FifoDrop(c.fifo, n));
      assert Run(c, Zeros(n - 1)) == Reply(FifoTake(c.fifo, n - 1), before) by {
        RunStreaming(c, n - 1);
      }
      assert Exchange(before, 0) == Shift(FifoByte(c.fifo, n - 1), after) by {
        StreamStep(before, 0);
        FifoSnoc(c.fifo, n - 1);
        if n - 1 < |c.fifo| {
          assert FifoDrop(c.fifo, n - 1)[0] == c.fifo[n - 1];
        }
      }
      RunThen(c, Zeros(n - 1), FifoTake(c.fifo, n - 1), before, 0, FifoByte(c.fifo, n - 1), after);
      ZerosSnoc(n);
      FifoTakeSnoc(c.fifo, n);
    } else {
      assert FifoTake(c.fifo, n) == [];
      assert FifoDrop(c.fifo, n) == c.fifo;
    }
  }


  /** A FIFO frame: after the command the device streams the FIFO's bytes in
      order, dropping each one it sends, and leaves the registers alone. */
  lemma RunFifo(c: Chip, n: nat)
    requires c.phase == Command
    ensures Run(c, [FifoCommand] + Zeros(n)) ==
      Reply([0] + FifoTake(c.fifo, n), c.(fifo := FifoDrop(c.fifo, n), phase := Streaming))
  {
    assert [] + [FifoCommand] == [FifoCommand];
    RunSnoc(c, [], FifoCommand);
    assert Run(c, [FifoCommand]) == Reply([0], c.(phase := Streaming));
    RunAppend(c, [FifoCommand], Zeros(n));
    RunStreaming(c.(phase := Streaming), n);
  }

  /** Reading back a burst just written at the same address returns the data,
      provided the burst fits in the register file. */
  lemma WriteThenReadBack(m: seq<bv8>, at: nat, data: seq<bv8>)
    requires at + |data| <= |m|
    ensures ReadBurst(WriteBurst(m, at, data), at, |data|) == data
  {
    var written := WriteBurst(m, at, data);
    var back := ReadBurst(written, at, |data|);
    assert |written| == |m|;
    forall i | 0 <= i < |data|
      ensures back[i] == data[i]
    {
      assert back[i] == Load(written, at + i) == written[at + i];
    }
  }

  /** A one-byte burst is a single register store (ignored past the end of the file). */
  lemma WriteOne(m: seq<bv8>, at: nat, b: bv8)
    ensures WriteBurst(m, at, [b]) == Store(m, at, b)
  {
    if at < |m| {
      assert WriteBurst(m, at, [b]) == m[at := b];
    } else {
      assert WriteBurst(m, at, [b]) == m;
    }
  }
}
