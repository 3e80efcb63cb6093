/**
 * Constant tables and one bit test of the TI8168 EVM board file: the GPIO
 * code to core-voltage table with its regulator constraints, the NAND and SPI
 * flash partition tables, and the NAND bus-width choice.
 */
module Ti8168Evm {
  import opened Wrappers
  import opened Bits
  import opened Bytes
  import opened MtdLayout

  // ---------------------------------------------------------------------------
  // Core-voltage regulator
  // ---------------------------------------------------------------------------

  /** Lowest and highest output the regulator's constraints allow, in microvolts. */
  const MinUv: nat := 800000
  const MaxUv: nat := 1025000

  /** Distance between neighbouring table voltages, in microvolts. */
  const StepUv: nat := 15000

  /** GPIO bank of the four voltage-select lines. */
  const VrGpioInstance: nat := 0

  /** The four voltage-select GPIO numbers, `vcore_gpios`. */
  const VcoreGpios: seq<nat> := [VrGpioInstance * 32 + 0, VrGpioInstance * 32 + 1, VrGpioInstance * 32 + 2, VrGpioInstance * 32 + 3]

  /** Mask of the GPIO lines inside their bank, `gpio_arr_mask`. */
  const GpioArrMask: nat := 0xF

  /** One `struct gpio_vr_data` entry: the value driven on the select lines and the voltage it selects. */
  datatype VselEntry = VselEntry(code: nat, uV: nat)

  /** `ti816x_vsel_table`. */
  const VselTable: seq<VselEntry> := [
    VselEntry(0x0, 800000), VselEntry(0x8, 815000), VselEntry(0x4, 830000), VselEntry(0xC, 845000),
    VselEntry(0x2, 860000), VselEntry(0xA, 875000), VselEntry(0x6, 890000), VselEntry(0xE, 905000),
    VselEntry(0x1, 920000), VselEntry(0x9, 935000), VselEntry(0x5, 950000), VselEntry(0xD, 965000),
    VselEntry(0x3, 980000), VselEntry(0xB, 995000), VselEntry(0x7, 1010000), VselEntry(0xF, 1025000)
  ]

  /** The low four bits of `i` in reverse order: bit 0 becomes bit 3 and so on. */
  function BitReverse4(i: nat): (r: nat)
    ensures r < 16
  {
    8 * Bit(i, 0) + 4 * Bit(i, 1) + 2 * Bit(i, 2) + Bit(i, 3)
  }

  /** Reversing the bits of a 4-bit value twice gives it back, so the reversal is a permutation of 0..15. */
  lemma BitReverse4Involution(i: nat)
    requires i < 16
    ensures BitReverse4(BitReverse4(i)) == i
  {
    match i
    case 0 => assert BitReverse4(0) == 0 && BitReverse4(0) == 0;
    case 1 => assert BitReverse4(1) == 8 && BitReverse4(8) == 1;
    case 2 => assert BitReverse4(2) == 4 && BitReverse4(4) == 2;
    case 3 => assert BitReverse4(3) == 12 && BitReverse4(12) == 3;
    case 4 => assert BitReverse4(4) == 2 && BitReverse4(2) == 4;
    case 5 => assert BitReverse4(5) == 10 && BitReverse4(10) == 5;
    case 6 => assert BitReverse4(6) == 6 && BitReverse4(6) == 6;
    case 7 => assert BitReverse4(7) == 14 && BitReverse4(14) == 7;
    case 8 => assert BitReverse4(8) == 1 && BitReverse4(1) == 8;
    case 9 => assert BitReverse4(9) == 9 && BitReverse4(9) == 9;
    case 10 => assert BitReverse4(10) == 5 && BitReverse4(5) == 10;
    case 11 => assert BitReverse4(11) == 13 && BitReverse4(13) == 11;
    case 12 => assert BitReverse4(12) == 3 && BitReverse4(3) == 12;
    case 13 => assert BitReverse4(13) == 11 && BitReverse4(11) == 13;
    case 14 => assert BitReverse4(14) == 7 && BitReverse4(7) == 14;
    case 15 => assert BitReverse4(15) == 15 && BitReverse4(15) == 15;
  }

  /** Entry `i` of the table selects `800 mV + 15 mV * i` with the bit-reversed code of `i`. */
  lemma VselTableShape()
    ensures |VselTable| == 16
    ensures forall i :: 0 <= i < 16 ==> VselTable[i] == VselEntry(BitReverse4(i), MinUv + StepUv * i)
  {
    forall i | 0 <= i < 16
      ensures VselTable[i] == VselEntry(BitReverse4(i), MinUv + StepUv * i)
    {
      assert i in {0, 1, 2, 3, 4, 5, 6, 7, 8, 9, 10, 11, 12, 13, 14, 15};
    }
  }

  /** The table lists voltages in strictly increasing order. */
  lemma VselVoltagesIncrease()
    ensures forall i, j :: 0 <= i < j < |VselTable| ==> VselTable[i].uV < VselTable[j].uV
  {
    VselTableShape();
  }

  /** The set of codes the table lists. */
  function VselCodes(): set<nat>
  {
    set i | 0 <= i < |VselTable| :: VselTable[i].code
  }

  /**
   * The codes are a permutation of 0..15: every 4-bit value occurs exactly
   * once, so code and voltage determine each other.
   */
  lemma VselCodesArePermutation()
    ensures forall c: nat :: c in VselCodes() <==> c < 16
    ensures forall i, j :: 0 <= i < j < |VselTable| ==> VselTable[i].code != VselTable[j].code
  {
    VselTableShape();
    forall c: nat | c < 16
      ensures c in VselCodes()
    {
      BitReverse4Involution(c);
      assert VselTable[BitReverse4(c)].code == c;
    }
    forall i, j | 0 <= i < j < |VselTable|
      ensures VselTable[i].code != VselTable[j].code
    {
      BitReverse4Involution(i);
      BitReverse4Involution(j);
    }
  }

  /**
   * Every code fits the select lines: masking with `gpio_arr_mask` keeps it
   * whole, and the four select GPIO lines give exactly the table's 16 states.
   */
  lemma VselCodesFitGpios()
    ensures forall i :: 0 <= i < |VselTable| ==> BitAnd(VselTable[i].code, GpioArrMask) == VselTable[i].code
    ensures |VselTable| == Pow2(|VcoreGpios|)
  {
    VselTableShape();
    forall i | 0 <= i < |VselTable|
      ensures BitAnd(VselTable[i].code, GpioArrMask) == VselTable[i].code
    {
      var c := VselTable[i].code;
      assert c in {0, 1, 2, 3, 4, 5, 6, 7, 8, 9, 10, 11, 12, 13, 14, 15};
    }
  }

  /** Every table voltage lies within the regulator constraints, and both bounds occur in the table. */
  lemma VselWithinConstraints()
    ensures forall i :: 0 <= i < |VselTable| ==> MinUv <= VselTable[i].uV <= MaxUv
    ensures VselTable[0].uV == MinUv && VselTable[|VselTable| - 1].uV == MaxUv
  {
    VselTableShape();
  }

  /** The voltage a table selects for a code read from the select lines; `None` for a code it does not list. */
  function VoltageOfCode(t: seq<VselEntry>, code: nat): (r: Option<nat>)
    ensures r.None? <==> forall i :: 0 <= i < |t| ==> t[i].code != code
    ensures r.Some? ==> exists i :: 0 <= i < |t| && t[i] == VselEntry(code, r.value)
  {
    if t == [] then None
    else if t[0].code == code then Some(t[0].uV)
    else
      var r := VoltageOfCode(t[1..], code);
      assert forall i :: 1 <= i < |t| ==> t[1..][i - 1] == t[i];
      if r.Some? then
        ghost var i :| 0 <= i < |t[1..]| && t[1..][i] == VselEntry(code, r.value);
        assert t[i + 1] == VselEntry(code, r.value);
        r
      else r
  }

  /** The code a table uses for a requested voltage; `None` for a voltage it does not list. */
  function CodeOfVoltage(t: seq<VselEntry>, uV: nat): (r: Option<nat>)
    ensures r.None? <==> forall i :: 0 <= i < |t| ==> t[i].uV != uV
    ensures r.Some? ==> exists i :: 0 <= i < |t| && t[i] == VselEntry(r.value, uV)
  {
    if t == [] then None
    else if t[0].uV == uV then Some(t[0].code)
    else
      var r := CodeOfVoltage(t[1..], uV);
      assert forall i :: 1 <= i < |t| ==> t[1..][i - 1] == t[i];
      if r.Some? then
        ghost var i :| 0 <= i < |t[1..]| && t[1..][i] == VselEntry(r.value, uV);
        assert t[i + 1] == VselEntry(r.value, uV);
        r
      else r
  }

  /**
   * Read through the board's table, every 4-bit code selects `800 mV + 15 mV`
   * times its bit reversal, and every other code nothing.
   */
  lemma VoltageOfCodeClosedForm(code: nat)
    ensures code < 16 ==> VoltageOfCode(VselTable, code) == Some(MinUv + StepUv * BitReverse4(code))
    ensures code >= 16 ==> VoltageOfCode(VselTable, code).None?
  {
    VselTableShape();
    if code < 16 {
      BitReverse4Involution(code);
      assert VselTable[BitReverse4(code)].code == code;
      var v := VoltageOfCode(VselTable, code).value;
      var i :| 0 <= i < 16 && VselTable[i] == VselEntry(code, v);
      BitReverse4Involution(i);
    }
  }

  /** Looking up the code for a table voltage and then the voltage for that code returns the voltage. */
  lemma VoltageCodeRoundTrip(uV: nat)
    requires exists i :: 0 <= i < |VselTable| && VselTable[i].uV == uV
    ensures CodeOfVoltage(VselTable, uV).Some?
    ensures VoltageOfCode(VselTable, CodeOfVoltage(VselTable, uV).value) == Some(uV)
  {
    VselCodesArePermutation();
    var c := CodeOfVoltage(VselTable, uV).value;
    var i :| 0 <= i < |VselTable| && VselTable[i] == VselEntry(c, uV);
    var v := VoltageOfCode(VselTable, c).value;
    var j :| 0 <= j < |VselTable| && VselTable[j] == VselEntry(c, v);
  }

  /** Looking up the voltage for a 4-bit code and then the code for that voltage returns the code. */
  lemma CodeVoltageRoundTrip(code: nat)
    requires code < 16
    ensures VoltageOfCode(VselTable, code).Some?
    ensures CodeOfVoltage(VselTable, VoltageOfCode(VselTable, code).value) == Some(code)
  {
    VselCodesArePermutation();
    VselVoltagesIncrease();
    assert code in VselCodes();
    var v := VoltageOfCode(VselTable, code).value;
    var i :| 0 <= i < |VselTable| && VselTable[i] == VselEntry(code, v);
    var c := CodeOfVoltage(VselTable, v).value;
    var j :| 0 <= j < |VselTable| && VselTable[j] == VselEntry(c, v);
  }

  // ---------------------------------------------------------------------------
  // Flash partitions
  // ---------------------------------------------------------------------------

  const SZ_4K: nat := 0x1000
  const SZ_128K: nat := 0x2_0000

  /** Erase-block size of the NAND flash; NAND partition sizes are whole blocks. */
  const NandBlockSize: nat := SZ_128K

  /** `ti816x_nand_partitions`. */
  const NandPartitions: seq<Partition> := [
    Partition("U-Boot", At(0), Sized(19 * NandBlockSize)),
    Partition("U-Boot Env", Append, Sized(1 * NandBlockSize)),
    Partition("Kernel", Append, Sized(34 * NandBlockSize)),
    Partition("File System", Append, Sized(1601 * NandBlockSize)),
    Partition("Reserved", Append, Full)
  ]

  /** `ti816x_spi_partitions`. */
  const SpiPartitions: seq<Partition> := [
    Partition("U-Boot", At(0), Sized(64 * SZ_4K)),
    Partition("U-Boot Env", Append, Sized(2 * SZ_4K)),
    Partition("Kernel", Append, Sized(640 * SZ_4K)),
    Partition("File System", Append, Full)
  ]

  /** The NAND partitions start at the offsets the table's comments give, each on an erase-block boundary. */
  lemma NandOffsetsMatchComments()
    ensures Offsets(NandPartitions, Some(0)) == Some([0x0, 0x260000, 0x280000, 0x6C0000, 0xCEE0000])
    ensures forall i :: 0 <= i < |NandPartitions| ==> Offsets(NandPartitions, Some(0)).value[i] % NandBlockSize == 0
  {
    assert Resolvable(NandPartitions, Some(0));
    var o := Offsets(NandPartitions, Some(0)).value;
    assert o[0] == 0x0;
    assert o[1] == 0x260000 by { assert o[1] == o[0] + 19 * 0x2_0000; }
    assert o[2] == 0x280000 by { assert o[2] == o[1] + 1 * 0x2_0000; }
    assert o[3] == 0x6C0000 by { assert o[3] == o[2] + 34 * 0x2_0000; }
    assert o[4] == 0xCEE0000 by { assert o[4] == o[3] + 1601 * 0x2_0000; }
    assert o == [0x0, 0x260000, 0x280000, 0x6C0000, 0xCEE0000];
  }

  /** No two NAND partitions overlap. */
  lemma NandPartitionsDoNotOverlap()
    ensures var offs := Offsets(NandPartitions, Some(0)).value;
      forall i, j :: 0 <= i < j < |NandPartitions| ==> offs[i] + NandPartitions[i].size.bytes <= offs[j]
  {
    AppendedPartitionsAreContiguous(NandPartitions, 0);
  }

  /** No two SPI partitions overlap. */
  lemma SpiPartitionsDoNotOverlap()
    ensures var offs := Offsets(SpiPartitions, Some(0)).value;
      forall i, j :: 0 <= i < j < |SpiPartitions| ==> offs[i] + SpiPartitions[i].size.bytes <= offs[j]
  {
    AppendedPartitionsAreContiguous(SpiPartitions, 0);
  }

  /** The SPI partitions start at the offsets the table's comments give, each on a 4 KiB boundary. */
  lemma SpiOffsetsMatchComments()
    ensures Offsets(SpiPartitions, Some(0)) == Some([0x0, 0x40000, 0x42000, 0x2C2000])
    ensures forall i :: 0 <= i < |SpiPartitions| ==> Offsets(SpiPartitions, Some(0)).value[i] % SZ_4K == 0
  {
    assert Resolvable(SpiPartitions, Some(0));
    var o := Offsets(SpiPartitions, Some(0)).value;
    assert o[0] == 0x0;
    assert o[1] == 0x40000 by { assert o[1] == o[0] + 64 * 0x1000; }
    assert o[2] == 0x42000 by { assert o[2] == o[1] + 2 * 0x1000; }
    assert o[3] == 0x2C2000 by { assert o[3] == o[2] + 640 * 0x1000; }
    assert o == [0x0, 0x40000, 0x42000, 0x2C2000];
  }

  // ---------------------------------------------------------------------------
  // NAND bus width
  // ---------------------------------------------------------------------------

  /** `NAND_BUSWIDTH_16`, the NAND option flag for a 16-bit bus; 0 means an 8-bit bus. */
  const NandBuswidth16: nat := 2

  /**
   * The bus width passed to the NAND setup: on a TI81xx part, 16-bit when bit
   * 16 (the BTMODE bus-width pin) of the control status word is set and 8-bit
   * otherwise; on other parts always 16-bit.
   */
  function NandBusWidth(isTi81xx: bool, controlStatus: u32): (bw: nat)
    ensures bw == NandBuswidth16 <==> !isTi81xx || Bit(controlStatus, 16) == 1
    ensures bw == 0 <==> isTi81xx && Bit(controlStatus, 16) == 0
  {
    if isTi81xx then
      BitAndSingleBit(controlStatus, 16);
      if BitAnd(controlStatus, Pow2(16)) != 0 then 2 else 0
    else NandBuswidth16
  }
}
