/**
 * The packed on-disk layout of a SigmaStudio firmware blob for SigmaDSP
 * codecs: the 12-byte file header, the closed set of action opcodes, and the
 * 6-byte action-record prefix with its split 24-bit length.
 *
 * Only the layout is modelled. How a loader checks the CRC, executes the
 * actions, waits or commits safeloads is not visible and is left out.
 */
module Sigma {
  import opened Wrappers
  import opened Bytes
  import opened Bits

  // ---------------------------------------------------------------------------
  // File header
  // ---------------------------------------------------------------------------

  /** The magic literal, `SIGMA_MAGIC`. */
  const SigmaMagic: string := "ADISIGM"

  /** Width of the `magic` array of the header. */
  const MagicSize: nat := 7

  /** `sizeof(struct sigma_firmware_header)`: magic[7], a `u8` version, an `__le32` crc, packed. */
  const HeaderSize: nat := 12

  /** Offset of the `crc` field inside the header. */
  const CrcOffset: nat := 8

  type Magic = s: seq<byte> | |s| == 7 witness [0, 0, 0, 0, 0, 0, 0]

  /** `struct sigma_firmware_header`, with `crc` already converted from little-endian. */
  datatype Header = Header(magic: Magic, version: byte, crc: u32)

  /** The bytes of `SIGMA_MAGIC` without its C string terminator. */
  function MagicBytes(): (m: Magic)
    ensures m == [0x41, 0x44, 0x49, 0x53, 0x49, 0x47, 0x4D]
  {
    seq(7, i requires 0 <= i < 7 => SigmaMagic[i] as int)
  }

  /** A header whose magic field holds `SIGMA_MAGIC`. */
  predicate HasSigmaMagic(h: Header)
  {
    h.magic == MagicBytes()
  }

  /** Reads the header from the front of a blob; a blob shorter than the header yields `None`. */
  function DecodeHeader(blob: seq<byte>): (r: Option<Header>)
    ensures r.None? <==> |blob| < HeaderSize
    ensures r.Some? ==> r.value.magic == blob[..MagicSize]
    ensures r.Some? ==> r.value.crc % 0x100 == blob[CrcOffset]
    ensures r.Some? ==> r.value.crc / 0x100_0000 == blob[CrcOffset + 3]
  {
    if |blob| < HeaderSize then None
    else Some(Header(blob[..7], blob[7], Le32(blob[8..12])))
  }

  /** The 12 bytes that store a header. */
  function EncodeHeader(h: Header): (s: seq<byte>)
    ensures |s| == HeaderSize
    ensures DecodeHeader(s) == Some(h)
  {
    var s := h.magic + [h.version] + Le32Bytes(h.crc);
    assert s[..7] == h.magic && s[8..12] == Le32Bytes(h.crc);
    s
  }

  /** The literal fills `magic[7]` exactly: seven non-NUL characters, so no terminator is stored. */
  lemma MagicFillsField()
    ensures |SigmaMagic| == MagicSize
    ensures forall i :: 0 <= i < |SigmaMagic| ==> 0 < SigmaMagic[i] as int < 0x80
    ensures MagicSize + 1 + 4 == HeaderSize
  {
  }

  /** A blob carries the SigmaStudio magic exactly when its first seven bytes are the ASCII codes of `A D I S I G M`. */
  lemma MagicCheckReadsFirstBytes(blob: seq<byte>)
    requires |blob| >= HeaderSize
    ensures HasSigmaMagic(DecodeHeader(blob).value) <==> blob[..MagicSize] == [0x41, 0x44, 0x49, 0x53, 0x49, 0x47, 0x4D]
  {
    assert MagicBytes() == [0x41, 0x44, 0x49, 0x53, 0x49, 0x47, 0x4D];
  }

  /** Every header field sits at its packed offset: magic at 0-6, version at 7, crc little-endian at 8-11. */
  lemma HeaderFieldOffsets(blob: seq<byte>)
    requires |blob| >= HeaderSize
    ensures DecodeHeader(blob).value.version == blob[7]
    ensures DecodeHeader(blob).value.crc
         == blob[8] as int + 0x100 * blob[9] as int + 0x1_0000 * blob[10] as int + 0x100_0000 * blob[11] as int
  {
    var c := DecodeHeader(blob).value.crc;
    assert c == Le16(blob[10], blob[11]) * 0x1_0000 + Le16(blob[8], blob[9]) by {
      DivModUnique(c / 0x1_0000, c % 0x1_0000);
    }
  }

  /** Decoding and re-encoding a header gives back the first 12 bytes of the blob. */
  lemma HeaderRoundTrip(blob: seq<byte>)
    requires |blob| >= HeaderSize
    ensures EncodeHeader(DecodeHeader(blob).value) == blob[..HeaderSize]
  {
    var h := DecodeHeader(blob).value;
    Le32RoundTrip(blob[8..12]);
    assert blob[..12] == blob[..7] + [blob[7]] + blob[8..12];
  }

  /** The header is read from the first 12 bytes only, whatever follows it. */
  lemma HeaderIgnoresPayload(h: Header, payload: seq<byte>)
    ensures DecodeHeader(EncodeHeader(h) + payload) == Some(h)
  {
    var s := EncodeHeader(h);
    assert (s + payload)[..12] == s;
    HeaderRoundTrip(s + payload);
  }

  // ---------------------------------------------------------------------------
  // Opcodes
  // ---------------------------------------------------------------------------

  /** The `SIGMA_ACTION_*` enumeration. */
  datatype Opcode = WriteXBytes | WriteSingle | WriteSafeload | Delay | PllWait | Noop | End

  /** The opcodes in declaration order; the C enum numbers them from 0 upward in this order. */
  const OpcodeOrder: seq<Opcode> := [WriteXBytes, WriteSingle, WriteSafeload, Delay, PllWait, Noop, End]

  /** The value of an opcode as stored in the `instr` byte. */
  function OpcodeByte(op: Opcode): (b: byte)
    ensures b < |OpcodeOrder| && OpcodeOrder[b] == op
  {
    match op
    case WriteXBytes => 0
    case WriteSingle => 1
    case WriteSafeload => 2
    case Delay => 3
    case PllWait => 4
    case Noop => 5
    case End => 6
  }

  /** The opcode an `instr` byte names; every byte outside the enumeration yields `None`. */
  function DecodeOpcode(b: byte): (r: Option<Opcode>)
    ensures r.None? <==> b >= |OpcodeOrder|
    ensures r.Some? ==> OpcodeByte(r.value) == b
  {
    if b < |OpcodeOrder| then Some(OpcodeOrder[b]) else None
  }

  /** Encoding an opcode and decoding the byte gives the opcode back. */
  lemma OpcodeRoundTrip(op: Opcode)
    ensures DecodeOpcode(OpcodeByte(op)) == Some(op)
  {
  }

  /** The opcode set is closed: exactly the bytes 0 to 6 are opcodes, and distinct opcodes have distinct bytes. */
  lemma OpcodesAreZeroToSix()
    ensures |OpcodeOrder| == 7
    ensures forall i, j :: 0 <= i < j < |OpcodeOrder| ==> OpcodeOrder[i] != OpcodeOrder[j]
    ensures forall op: Opcode :: op in OpcodeOrder
    ensures forall op1: Opcode, op2: Opcode :: OpcodeByte(op1) == OpcodeByte(op2) ==> op1 == op2
  {
    forall op: Opcode
      ensures op in OpcodeOrder
    {
      assert OpcodeOrder[OpcodeByte(op)] == op;
    }
  }

  // ---------------------------------------------------------------------------
  // Action records
  // ---------------------------------------------------------------------------

  /** `sizeof(struct sigma_action)` without its flexible payload: the payload starts at this offset. */
  const ActionPrefixSize: nat := 6

  /** The largest length the split 24-bit length field can hold, plus one. */
  const LengthLimit: nat := 0x100_0000

  /**
   * `struct sigma_action`: the `len` field converted from little-endian, the
   * `addr` field from big-endian, and `payload` the bytes after the prefix.
   */
  datatype Action = Action(instr: byte, lenHi: byte, len: u16, addr: u16, payload: seq<byte>)

  /** Reads an action record from the front of a buffer; fewer than 6 bytes yield `None`. */
  function DecodeAction(s: seq<byte>): (r: Option<Action>)
    ensures r.None? <==> |s| < ActionPrefixSize
    ensures r.Some? ==> r.value.instr == s[0] && r.value.lenHi == s[1]
    ensures r.Some? ==> r.value.payload == s[ActionPrefixSize..]
  {
    if |s| < ActionPrefixSize then None
    else Some(Action(s[0], s[1], Le16(s[2], s[3]), Be16(s[4], s[5]), s[6..]))
  }

  /** The bytes of an action record: the packed prefix followed by the payload. */
  function EncodeAction(a: Action): (s: seq<byte>)
    ensures |s| == ActionPrefixSize + |a.payload|
    ensures s[ActionPrefixSize..] == a.payload
    ensures DecodeAction(s) == Some(a)
  {
    var s := [a.instr, a.lenHi] + Le16Bytes(a.len) + Be16Bytes(a.addr) + a.payload;
    assert s[6..] == a.payload;
    s
  }

  /** Decoding and re-encoding an action record reproduces the buffer. */
  lemma ActionRoundTrip(s: seq<byte>)
    requires |s| >= ActionPrefixSize
    ensures EncodeAction(DecodeAction(s).value) == s
  {
    var a := DecodeAction(s).value;
    Le16RoundTrip(s[2], s[3]);
    Be16RoundTrip(s[4], s[5]);
    assert s == [s[0], s[1]] + [s[2], s[3]] + [s[4], s[5]] + s[6..];
  }

  /** The two 16-bit fields use opposite byte orders: `len` is little-endian at 2-3, `addr` big-endian at 4-5. */
  lemma ActionFieldOffsets(s: seq<byte>)
    requires |s| >= ActionPrefixSize
    ensures DecodeAction(s).value.len == s[3] as int * 0x100 + s[2]
    ensures DecodeAction(s).value.addr == s[4] as int * 0x100 + s[5]
  {
  }

  /** `sigma_action_len`: `(len_hi << 16) | le16_to_cpu(len)`. */
  function ActionLen(a: Action): (n: u32)
    ensures n == a.lenHi * 0x1_0000 + a.len
    ensures n < LengthLimit
  {
    Pow2Of16();
    BitOrDisjoint(a.lenHi, a.len, 16);
    BitOr(a.lenHi * Pow2(16), a.len)
  }

  /** Stores a 24-bit length into the `len_hi` and `len` fields of an action, leaving the other fields alone. */
  function WithLength(a: Action, n: nat): (r: Action)
    requires n < LengthLimit
    ensures ActionLen(r) == n
    ensures r.instr == a.instr && r.addr == a.addr && r.payload == a.payload
  {
    a.(lenHi := n / 0x1_0000, len := n % 0x1_0000)
  }

  /** Splitting the length an action already holds changes nothing: the split is the only one. */
  lemma LengthSplitUnique(a: Action)
    ensures WithLength(a, ActionLen(a)) == a
  {
    DivModUnique(a.lenHi, a.len);
  }

  /**
   * A length below 2^24 written as `len_hi = n / 65536` and the little-endian
   * bytes of `n % 65536`, then read back through `sigma_action_len`, is `n`;
   * the length bytes sit at offsets 1, 2 and 3 of the record.
   */
  lemma LengthBytesRoundTrip(instr: byte, n: nat, addr: u16, payload: seq<byte>)
    requires n < LengthLimit
    ensures var s := EncodeAction(WithLength(Action(instr, 0, 0, addr, payload), n));
      && s[1] == n / 0x1_0000
      && s[2] == n % 0x100
      && s[3] == n / 0x100 % 0x100
      && ActionLen(DecodeAction(s).value) == n
  {
    var a := WithLength(Action(instr, 0, 0, addr, payload), n);
    var s := EncodeAction(a);
    assert s[2] == (n % 0x1_0000) % 0x100 && s[3] == (n % 0x1_0000) / 0x100;
    LowBytesOfLength(n);
  }

  /** The two low bytes of `n % 2^16` are the two low bytes of `n`. */
  lemma LowBytesOfLength(n: nat)
    ensures (n % 0x1_0000) % 0x100 == n % 0x100
    ensures (n % 0x1_0000) / 0x100 == n / 0x100 % 0x100
  {
    var q, r := n / 0x1_0000, n % 0x1_0000;
    var q2, r2 := r / 0x100, r % 0x100;
    assert n == 0x100 * (0x100 * q + q2) + r2;
    assert n / 0x100 == 0x100 * q + q2;
    assert n % 0x100 == r2;
  }

  /**
   * The bytes 01 00 01 00 00 02 7F decode as opcode WRITESINGLE, length 1
   * (split as 0 / [1, 0]), address 0x0002 (big-endian [0x00, 0x02]) and
   * payload [0x7F].
   */
  lemma WriteSingleRecordExample()
    ensures var a := DecodeAction([1, 0, 1, 0, 0x00, 0x02, 0x7F]).value;
      && ActionOpcode(a) == Some(WriteSingle)
      && ActionLen(a) == 1
      && a.addr == 0x0002
      && a.payload == [0x7F]
  {
  }

  /** The opcode of an action record, if its `instr` byte is one. */
  function ActionOpcode(a: Action): (r: Option<Opcode>)
    ensures r.Some? <==> a.instr < 7
    ensures r.Some? ==> OpcodeByte(r.value) == a.instr
  {
    DecodeOpcode(a.instr)
  }
}
