/** The register file the configuration writers leave behind, as values: what
    `config_act_int` and `config_inact_int` (firmware/adxl362.c:74-90) do to
    the device's registers, and what each single-register writer does. */
module Config {
  import opened Registers
  import opened Words
  import opened Fields
  import opened SimDevice

  /** The registers `config_act_int` writes. */
  const ActivityRegisters: set<int> := {ThreshActL as int, ThreshActH as int, TimeAct as int, ActInactCtl as int}

  /** The registers `config_inact_int` writes. */
  const InactivityRegisters: set<int> :=
    {ThreshInactL as int, ThreshInactH as int, TimeInactL as int, TimeInactH as int, ActInactCtl as int}

  /** After `config_act_int(thresh, time)`: the threshold in THRESH_ACT_L/H,
      low byte first, the time in TIME_ACT, then ACT_INACT_CTL as read back
      with ACT_EN and ACT_REF ORed in. */
  function ActivityConfigured(m: seq<bv8>, thresh: bv16, time: bv8): (r: seq<bv8>)
    requires |m| == RegisterCount
    ensures |r| == |m|
    ensures Le16(Load(r, ThreshActL as nat), Load(r, ThreshActH as nat)) == thresh
    ensures Load(r, TimeAct as nat) == time
    ensures Load(r, ActInactCtl as nat) == WithActivityEnabled(Load(m, ActInactCtl as nat))
    ensures forall j :: 0 <= j < |m| && j !in ActivityRegisters ==> r[j] == m[j]
  {
    var m1 := WriteBurst(m, ThreshActL as nat, [LoByte(thresh), HiByte(thresh)]);
    var m2 := Store(m1, TimeAct as nat, time);
    SplitThenAssemble(thresh);
    Store(m2, ActInactCtl as nat, WithActivityEnabled(Load(m2, ActInactCtl as nat)))
  }

  /** After `config_inact_int(thresh, time)`: the threshold in
      THRESH_INACT_L/H and the time in TIME_INACT_L/H, both low byte first,
      then ACT_INACT_CTL as read back with INACT_EN and INACT_REF ORed in. */
  function InactivityConfigured(m: seq<bv8>, thresh: bv16, time: bv16): (r: seq<bv8>)
    requires |m| == RegisterCount
    ensures |r| == |m|
    ensures Le16(Load(r, ThreshInactL as nat), Load(r, ThreshInactH as nat)) == thresh
    ensures Le16(Load(r, TimeInactL as nat), Load(r, TimeInactH as nat)) == time
    ensures Load(r, ActInactCtl as nat) == WithInactivityEnabled(Load(m, ActInactCtl as nat))
    ensures forall j :: 0 <= j < |m| && j !in InactivityRegisters ==> r[j] == m[j]
  {
    var m1 := WriteBurst(m, ThreshInactL as nat, [LoByte(thresh), HiByte(thresh)]);
    var m2 := WriteBurst(m1, TimeInactL as nat, [LoByte(time), HiByte(time)]);
    SplitThenAssemble(thresh);
    SplitThenAssemble(time);
    Store(m2, ActInactCtl as nat, WithInactivityEnabled(Load(m2, ActInactCtl as nat)))
  }

  /** ACT_INACT_CTL, read back after the threshold and time writes of
      `config_act_int`, still holds its value from before them. */
  lemma ActivityControlRead(m: seq<bv8>, thresh: bv16, time: bv8)
    requires |m| == RegisterCount
    ensures var m1 := WriteBurst(m, ThreshActL as nat, [LoByte(thresh), HiByte(thresh)]);
      Load(Store(m1, TimeAct as nat, time), ActInactCtl as nat) == Load(m, ActInactCtl as nat)
  {
  }

  /** Likewise for `config_inact_int`. */
  lemma InactivityControlRead(m: seq<bv8>, thresh: bv16, time: bv16)
    requires |m| == RegisterCount
    ensures var m1 := WriteBurst(m, ThreshInactL as nat, [LoByte(thresh), HiByte(thresh)]);
      Load(WriteBurst(m1, TimeInactL as nat, [LoByte(time), HiByte(time)]), ActInactCtl as nat) == Load(m, ActInactCtl as nat)
  {
  }
}
