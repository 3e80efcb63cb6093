# SigmaDSP firmware layout, Microburst clocking and TI8168 EVM board tables in Dafny

This project models three small pieces of pure logic from a Linux kernel tree
for a TI8168-based board with an ADAU1761 codec, and proves properties of them.

- **SigmaStudio firmware layout** (`sound/soc/codecs/sigma.h`). A firmware blob
  starts with a packed 12-byte header: the 7-byte magic `"ADISIGM"`, a `u8`
  version and a little-endian 32-bit CRC. It is followed by action records. Each
  record has a packed 6-byte prefix: `instr`, `len_hi`, a little-endian 16-bit
  `len` and a big-endian 16-bit `addr`. The payload follows the prefix. The
  record length is the 24-bit value `(len_hi << 16) | len`. Module `Sigma`
  decodes and encodes headers, opcodes and record prefixes over byte
  sequences. It proves both round trips, the field offsets, the closed opcode
  set and the 24-bit length split and join.
- **Microburst `hw_params`** (`sound/soc/davinci/microburst.c`). The callback
  does five steps: it sets the DAI format on the CPU, then on the codec. It
  maps the sample rate to a PLL output rate, either 48 kHz × 1024 or
  44.1 kHz × 1024, and rejects any other rate with `-EINVAL`. Then it programs
  the codec PLL from the 12.288 MHz MCLK, and finally selects the PLL as the
  codec sysclk. It returns the first non-zero result. Module `Microburst`
  models each ALSA call as an opaque `Call` answered by an oracle
  `step: Call -> int`. `HwParams` returns the result together with the calls
  made, in order. The driver's nested early returns are proved equal to a
  generic early-return runner, `RunSteps`.
- **TI8168 EVM board tables** (`arch/arm/mach-omap2/board-ti8168evm.c`).
  - The 16-entry GPIO-code to core-voltage table, checked against the
    regulator constraints and the four select GPIOs.
  - The NAND and SPI partition tables, with their append-style offsets
    resolved by module `MtdLayout`.
  - The NAND bus-width choice made from bit 16 of the control status word.

Supporting modules:
- `Wrappers` provides `Option`.
- `Bits` defines C's `<<`, `|` and `&` over naturals, bit by bit. This turns
  "an OR of disjoint fields is their sum" into a proved lemma.
- `Bytes` defines `byte`/`u16`/`u32` and the little- and big-endian field codecs.

Modelling choices:
- Sample rates (`params_rate` is an `unsigned int`), control words and record
  fields use subset types of `int` bounded to their C widths (`u32`, `u16`,
  `byte`). No arithmetic in the modelled code can overflow those widths: the
  largest PLL value is `48000 * 1024`, and the 24-bit length fits in a `u32`.
- `EINVAL` (22) and `NAND_BUSWIDTH_16` (2) come from kernel headers that are
  not part of this model. Their values are the kernel's.
- The meaning of `MTDPART_OFS_APPEND` is taken as the MTD core defines it: the
  partition starts where the previous one ends. The MTD core is not part of
  this model.
- `process_sigma_firmware` is only declared (`sigma.h:51-53`), so the model
  decodes the layout and does not check or execute anything. A buffer too
  short for a header or record prefix decodes to `None`. `HasSigmaMagic` is
  the 7-byte comparison of the magic field with `SIGMA_MAGIC`; rejecting a
  blob on a mismatch is the loader's job and is left out.

## Model

| member | source | states |
|---|---|---|
| Bits.BitOrDisjoint | sound/soc/codecs/sigma.h:44 | OR-ing `hi << k` with a value below 2^k equals adding them, so `(len_hi << 16) \| len` is `len_hi * 65536 + len` |
| Bits.BitAndSingleBit | arch/arm/mach-omap2/board-ti8168evm.c:396 | `x & (1 << k)` is `2^k` when bit k of x is set and 0 otherwise |
| Bytes.Le16 | sound/soc/codecs/sigma.h:37 | an `__le16` field's first byte is the low-order byte and its second byte the high-order byte |
| Bytes.Be16 | sound/soc/codecs/sigma.h:38 | a `__be16` field's first byte is the high-order byte and its second byte the low-order byte |
| Bytes.Le32 | sound/soc/codecs/sigma.h:21 | an `__le32` field is two little-endian 16-bit halves, low half first |
| Bytes.Le16Bytes | sound/soc/codecs/sigma.h:37 | storing a 16-bit value little-endian gives two bytes that read back as that value |
| Bytes.Be16Bytes | sound/soc/codecs/sigma.h:38 | storing a 16-bit value big-endian gives two bytes that read back as that value |
| Bytes.Le32Bytes | sound/soc/codecs/sigma.h:21 | storing a 32-bit value little-endian gives four bytes that read back as that value |
| Bytes.Le16RoundTrip | sound/soc/codecs/sigma.h:37 | reading two bytes as `__le16` and storing the value again reproduces the bytes |
| Bytes.Be16RoundTrip | sound/soc/codecs/sigma.h:38 | reading two bytes as `__be16` and storing the value again reproduces the bytes |
| Bytes.Le32RoundTrip | sound/soc/codecs/sigma.h:21 | reading four bytes as `__le32` and storing the value again reproduces the bytes |
| Bytes.Be16IsSwappedLe16 | sound/soc/codecs/sigma.h:37-38 | the same byte pair reads differently in the `len` and `addr` fields unless both bytes are equal: big-endian is little-endian with the bytes swapped |
| Sigma.MagicBytes | sound/soc/codecs/sigma.h:16 | the magic field's seven bytes are 0x41 0x44 0x49 0x53 0x49 0x47 0x4D, the ASCII codes of `SIGMA_MAGIC` without its terminator |
| Sigma.MagicFillsField | sound/soc/codecs/sigma.h:16-22 | `"ADISIGM"` has exactly 7 non-NUL ASCII characters, filling `magic[7]` with no terminator, and 7 + 1 + 4 is the 12-byte header size |
| Sigma.DecodeHeader | sound/soc/codecs/sigma.h:18-22 | a header is read only from a buffer of at least 12 bytes; the magic is bytes 0-6 and the crc's low byte is byte 8 and its high byte byte 11 |
| Sigma.EncodeHeader | sound/soc/codecs/sigma.h:18-22 | a stored header is 12 bytes and reads back as the same header |
| Sigma.MagicCheckReadsFirstBytes | sound/soc/codecs/sigma.h:16-19 | a header has the SigmaStudio magic exactly when the blob's first seven bytes are 0x41 0x44 0x49 0x53 0x49 0x47 0x4D ("ADISIGM") |
| Sigma.HeaderFieldOffsets | sound/soc/codecs/sigma.h:18-22 | the version is byte 7 and the crc is bytes 8-11 read little-endian |
| Sigma.HeaderRoundTrip | sound/soc/codecs/sigma.h:18-22 | decoding a header and storing it again reproduces the first 12 bytes of the blob |
| Sigma.HeaderIgnoresPayload | sound/soc/codecs/sigma.h:18-22 | the header is read the same whatever bytes follow it |
| Sigma.OpcodeByte | sound/soc/codecs/sigma.h:24-32 | each opcode's byte is its position in the declaration order WRITEXBYTES … END |
| Sigma.DecodeOpcode | sound/soc/codecs/sigma.h:24-32 | a byte names an opcode exactly when it is below 7, and that opcode's byte is the byte |
| Sigma.OpcodeRoundTrip | sound/soc/codecs/sigma.h:24-32 | the byte of any opcode decodes back to that opcode |
| Sigma.OpcodesAreZeroToSix | sound/soc/codecs/sigma.h:24-32 | there are exactly seven opcodes, all distinct, every opcode is listed, and distinct opcodes have distinct bytes |
| Sigma.DecodeAction | sound/soc/codecs/sigma.h:34-40 | a record needs 6 prefix bytes; `instr` is byte 0, `len_hi` byte 1, and the payload starts at offset 6 |
| Sigma.EncodeAction | sound/soc/codecs/sigma.h:34-40 | a stored record is the 6-byte prefix followed by the payload, and it reads back as the same record |
| Sigma.ActionRoundTrip | sound/soc/codecs/sigma.h:34-40 | decoding a record and storing it again reproduces the buffer |
| Sigma.ActionFieldOffsets | sound/soc/codecs/sigma.h:37-38 | `len` is bytes 2-3 read little-endian (`b1*256 + b0`) and `addr` is bytes 4-5 read big-endian (`a0*256 + a1`) |
| Sigma.ActionLen | sound/soc/codecs/sigma.h:42-45 | `sigma_action_len` is `len_hi * 65536 + len` and always below 2^24 |
| Sigma.WithLength | sound/soc/codecs/sigma.h:36-37 | any length below 2^24 can be stored in `len_hi`/`len`, leaving the other fields unchanged, and `sigma_action_len` reads it back |
| Sigma.LengthSplitUnique | sound/soc/codecs/sigma.h:42-45 | splitting the length a record holds gives back its own `len_hi` and `len`, so the split is unique |
| Sigma.LengthBytesRoundTrip | sound/soc/codecs/sigma.h:34-45 | a length below 2^24 is stored as byte 1 = L / 65536 and bytes 2-3 = L % 65536 little-endian; decoding the bytes and applying `sigma_action_len` gives L |
| Sigma.WriteSingleRecordExample | sound/soc/codecs/sigma.h:24-45 | the bytes 01 00 01 00 00 02 7F decode as a WRITESINGLE record of length 1 to address 0x0002 with payload 0x7F |
| Sigma.ActionOpcode | sound/soc/codecs/sigma.h:24-35 | a record has an opcode exactly when its `instr` byte is below 7, and that opcode's byte is `instr` |
| Microburst.PllRate | sound/soc/davinci/microburst.c:91-112 | rates 8000…96000 of the 48 kHz family select 49152000, rates 7350…88200 of the 44.1 kHz family select 45158400, and each selection happens only for those rates; every other rate is rejected |
| Microburst.FamiliesDisjoint | sound/soc/davinci/microburst.c:91-109 | no rate is in both case groups, so no rate could select both PLL settings |
| Microburst.PllRateIsMultipleOfRate | sound/soc/davinci/microburst.c:91-109 | every accepted rate divides its PLL rate, with a ratio between 512 and 6144 |
| Microburst.HwParams | sound/soc/davinci/microburst.c:72-123 | the calls made are a prefix of CPU fmt, codec fmt, PLL, sysclk; a call is made only after every earlier call returned 0; a failing call's result is returned; a rejected rate stops after the two fmt calls with `-EINVAL`; success needs all four calls |
| Microburst.RejectedRateSkipsClocks | sound/soc/davinci/microburst.c:110-111 | for a rate outside both families only format calls are made, the result is never 0, and it is `-EINVAL` when both format calls succeed |
| Microburst.ClockCallsUseSelectedRate | sound/soc/davinci/microburst.c:114-122 | the PLL goes from 12288000 Hz to the selected rate, sysclk is set to that same rate, and once the sysclk call is made its result is the driver's result |
| Microburst.RunSteps | sound/soc/davinci/microburst.c:81-122 | an early-return sequence returns 0 exactly when every step returns 0; otherwise it returns the first non-zero result and makes only the calls up to that step |
| Microburst.HwParamsIsEarlyReturn | sound/soc/davinci/microburst.c:81-122 | the driver is exactly the early-return run of its five steps: CPU fmt, codec fmt, rate check, PLL, sysclk |
| MtdLayout.Offsets | arch/arm/mach-omap2/board-ti8168evm.c:113-140 | offsets resolve exactly when no appended partition follows a size-to-end one; a fixed offset stands and an appended one is the previous offset plus the previous size |
| MtdLayout.AppendedPartitionsAreContiguous | arch/arm/mach-omap2/board-ti8168evm.c:113-140 | in a table whose first partition starts at the base (fixed there or appended) and whose later partitions are all appended, the offsets resolve and no two partitions overlap: each sized partition ends at or before every later one starts |
| Ti8168Evm.BitReverse4Involution | arch/arm/mach-omap2/board-ti8168evm.c:161-166 | reversing a 4-bit code twice gives it back |
| Ti8168Evm.VselTableShape | arch/arm/mach-omap2/board-ti8168evm.c:161-166 | the table has 16 entries, and entry i has the bit-reversed code of i and the voltage 800000 + 15000·i µV |
| Ti8168Evm.VselVoltagesIncrease | arch/arm/mach-omap2/board-ti8168evm.c:161-166 | table voltages are strictly increasing |
| Ti8168Evm.VselCodesArePermutation | arch/arm/mach-omap2/board-ti8168evm.c:161-166 | the codes are exactly 0..15, each occurring once |
| Ti8168Evm.VselCodesFitGpios | arch/arm/mach-omap2/board-ti8168evm.c:161-184 | every code is unchanged by `gpio_arr_mask` 0xF, and the four select GPIOs give exactly the table's 16 states |
| Ti8168Evm.VselWithinConstraints | arch/arm/mach-omap2/board-ti8168evm.c:149-166 | every voltage lies in [800000, 1025000] µV, the first entry is the minimum and the last the maximum |
| Ti8168Evm.VoltageOfCode | arch/arm/mach-omap2/board-ti8168evm.c:161-166 | a code yields a voltage exactly when the table lists it, and the result is a table entry for that code |
| Ti8168Evm.CodeOfVoltage | arch/arm/mach-omap2/board-ti8168evm.c:161-166 | a voltage yields a code exactly when the table lists it, and the result is a table entry for that voltage |
| Ti8168Evm.VoltageOfCodeClosedForm | arch/arm/mach-omap2/board-ti8168evm.c:161-166 | through the board table, code c < 16 selects 800000 + 15000·bitreverse4(c) µV and any larger code selects nothing |
| Ti8168Evm.VoltageCodeRoundTrip | arch/arm/mach-omap2/board-ti8168evm.c:161-166 | looking up the code for a listed voltage and then the voltage for that code gives back the voltage |
| Ti8168Evm.CodeVoltageRoundTrip | arch/arm/mach-omap2/board-ti8168evm.c:161-166 | every 4-bit code selects a voltage, and looking up the code for that voltage gives back the code |
| Ti8168Evm.NandOffsetsMatchComments | arch/arm/mach-omap2/board-ti8168evm.c:108-140 | NAND partitions of 19, 1, 34 and 1601 blocks of 128 KiB start at 0x0, 0x260000, 0x280000, 0x6C0000 and 0xCEE0000, all block-aligned |
| Ti8168Evm.NandPartitionsDoNotOverlap | arch/arm/mach-omap2/board-ti8168evm.c:113-140 | no two NAND partitions overlap |
| Ti8168Evm.SpiOffsetsMatchComments | arch/arm/mach-omap2/board-ti8168evm.c:247-270 | SPI partitions of 64, 2 and 640 units of 4 KiB start at 0x0, 0x40000, 0x42000 and 0x2C2000, all 4 KiB-aligned |
| Ti8168Evm.SpiPartitionsDoNotOverlap | arch/arm/mach-omap2/board-ti8168evm.c:247-270 | no two SPI partitions overlap |
| Ti8168Evm.NandBusWidth | arch/arm/mach-omap2/board-ti8168evm.c:394-405 | the bus width is 16-bit (2) exactly when the part is not TI81xx or bit 16 of the control status word is set, and 8-bit (0) exactly otherwise |

## Left out

- `process_sigma_firmware` and `process_sigma_firmware_regmap` are declared in `sigma.h` without a body. The model leaves out the CRC algorithm and check, rejecting a blob on a magic mismatch (the comparison itself is `HasSigmaMagic`), any version check, action dispatch, delay units, PLL-lock polling, safeload capacity and commit, and End handling.
- I2C/regmap transport, firmware-file loading and the `i2c_client`/`device` handles are kernel facilities outside the model.
- The ALSA calls `snd_soc_dai_set_fmt`, `snd_soc_dai_set_pll` and `snd_soc_dai_set_sysclk` are opaque oracle results. The format word, PLL and clock-source identifiers and clock direction are the same constants in every call, so they are symbolic.
- `params_rate` reading the rate out of the hardware parameters is outside the model; the rate is an input.
- `sound/soc/davinci/microburst-from-davinci.c` is not part of this model. Its `evm_hw_params` is three foreign calls with a constant sysclk, and the rest is declarative.
- The DAPM widget and route tables, the DAI link and card structures, and `evm_init`/`evm_exit` of `microburst.c` are registration data and module lifecycle.
- From the board file, these are registration and hardware setup and are not modelled: platform/I2C/SPI/MMC/USB registration, pin-mux, IRQ and IO mapping, GPIO setup, McASP data, the `MACHINE_START` descriptor and the NOR partition table.
- `MtdLayout.Offsets`: the MTD core also supports `MTDPART_OFS_NXTBLK` and erase-block alignment. These tables do not use them, so they are not modelled.
- The size-to-end (`MTDPART_SIZ_FULL`) last partitions depend on the flash size, which is not visible. The "1.24 MiB" SPI comment is not checked.
- `Ti8168Evm.NandBusWidth` takes the control status word as an input. The raw MMIO read of that word is not modelled.
- `pmic_vout`, `valid_ops_mask` and `gpio_single_bank` of the regulator data have meaning only inside the GPIO regulator driver, which is not part of this model.
