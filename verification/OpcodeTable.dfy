/**
  The opcode table of the length decoder, `hde32_table`, as data, and the few
  facts about it the decoder relies on.
 */
module OpcodeTable {
  type Byte = x: int | 0 <= x < 256

  const DELTA_OPCODES: nat := 0x4a
  const DELTA_FPU_REG: nat := 0xf1
  const DELTA_FPU_MODRM: nat := 0xf8
  const DELTA_PREFIXES: nat := 0x130
  const DELTA_OP_LOCK_OK: nat := 0x1a1
  const DELTA_OP2_LOCK_OK: nat := 0x1b9
  const DELTA_OP_ONLY_MEM: nat := 0x1cb
  const DELTA_OP2_ONLY_MEM: nat := 0x1da
  const TABLE_SIZE: nat := 516

  const C_ERROR: Byte := 0xff

  /** The only flag bytes an instruction row ends up with. */
  predicate IsFlags(b: Byte) {
    b in {0x00, 0x01, 0x02, 0x03, 0x04, 0x06, 0x10, 0x11, 0x14, 0x20, 0x50}
  }

  predicate EntryOk(t: seq<Byte>, base: nat, b: Byte)
    requires |t| == TABLE_SIZE && base <= DELTA_OPCODES
  {
    b == C_ERROR || IsFlags(b) || (b >= 0x80 && IsFlags(t[base + b % 128]))
  }

  ghost predicate PrefixIndexOk(t: seq<Byte>)
    requires |t| == TABLE_SIZE
  {
    forall i | DELTA_PREFIXES <= i < DELTA_PREFIXES + 64 :: t[i] <= 0x6d
  }

  predicate OpcodeIndexOk(t: seq<Byte>)
    requires |t| == TABLE_SIZE
  {
    forall i | 0 <= i < 64 :: 0x96 <= t[i] <= 0xc5 || t[i] == 0xd6
  }

  ghost predicate Opcode2IndexOk(t: seq<Byte>)
    requires |t| == TABLE_SIZE
  {
    forall i | DELTA_OPCODES <= i < DELTA_OPCODES + 64 :: 0x50 <= t[i] <= 0xa3
  }

  ghost predicate OpcodeEntriesOk(t: seq<Byte>)
    requires |t| == TABLE_SIZE
  {
    forall i | 0x96 <= i < 0xc9 || 0xd6 <= i < 0xda :: EntryOk(t, 0, t[i])
  }

  ghost predicate Opcode2EntriesOk(t: seq<Byte>)
    requires |t| == TABLE_SIZE
  {
    forall i | 0x9a <= i < 0xf1 :: EntryOk(t, DELTA_OPCODES, t[i])
  }

  /** The rows of `push imm32`, `mov eax, imm32` and the 0xff group, which the
      planted jumps use. */
  predicate JumpRowsOk(t: seq<Byte>)
    requires |t| == TABLE_SIZE && OpcodeIndexOk(t)
  {
    t[t[0x68 / 4]] == 0x10 && t[t[0xb8 / 4]] == 0x10 && t[t[0xff / 4] + 3] == 0xc8 && t[0x48] == 0x01
  }

  /** What the decoder relies on: the size, the ranges of the two-level indexes
      (so no lookup leaves its section), and the flag bytes found there. */
  ghost predicate Shaped(t: seq<Byte>) {
    && |t| == TABLE_SIZE
    && PrefixIndexOk(t) && OpcodeIndexOk(t) && Opcode2IndexOk(t)
    && OpcodeEntriesOk(t) && Opcode2EntriesOk(t) && JumpRowsOk(t)
  }

  /** The table in rows of fifteen bytes; the last row has only six. */
  function Row(r: nat): (s: seq<Byte>)
    ensures |s| == 15
  {
    match r
    case 0 => [0xa3, 0xa8, 0xa3, 0xa8, 0xa3, 0xa8, 0xa3, 0xa8, 0xa3, 0xa8, 0xa3, 0xa8, 0xa3, 0xa8, 0xa3]
    case 1 => [0xa8, 0xaa, 0xaa, 0xaa, 0xaa, 0xaa, 0xaa, 0xaa, 0xaa, 0xac, 0xaa, 0xb2, 0xaa, 0x9f, 0x9f]
    case 2 => [0x9f, 0x9f, 0xb5, 0xa3, 0xa3, 0xa4, 0xaa, 0xaa, 0xba, 0xaa, 0x96, 0xaa, 0xa8, 0xaa, 0xc3]
    case 3 => [0xc3, 0x96, 0x96, 0xb7, 0xae, 0xd6, 0xbd, 0xa3, 0xc5, 0xa3, 0xa3, 0x9f, 0xc3, 0x9c, 0xaa]
    case 4 => [0xaa, 0xac, 0xaa, 0xbf, 0x03, 0x7f, 0x11, 0x7f, 0x01, 0x7f, 0x01, 0x3f, 0x01, 0x01, 0x90]
    case 5 => [0x82, 0x7d, 0x97, 0x59, 0x59, 0x59, 0x59, 0x59, 0x7f, 0x59, 0x59, 0x60, 0x7d, 0x7f, 0x7f]
    case 6 => [0x59, 0x59, 0x59, 0x59, 0x59, 0x59, 0x59, 0x59, 0x59, 0x59, 0x59, 0x59, 0x9a, 0x88, 0x7d]
    case 7 => [0x59, 0x50, 0x50, 0x50, 0x50, 0x59, 0x59, 0x59, 0x59, 0x61, 0x94, 0x61, 0x9e, 0x59, 0x59]
    case 8 => [0x85, 0x59, 0x92, 0xa3, 0x60, 0x60, 0x59, 0x59, 0x59, 0x59, 0x59, 0x59, 0x59, 0x59, 0x59]
    case 9 => [0x59, 0x59, 0x9f, 0x01, 0x03, 0x01, 0x04, 0x03, 0xd5, 0x03, 0xcc, 0x01, 0xbc, 0x03, 0xf0]
    case 10 => [0x10, 0x10, 0x10, 0x10, 0x50, 0x50, 0x50, 0x50, 0x14, 0x20, 0x20, 0x20, 0x20, 0x01, 0x01]
    case 11 => [0x01, 0x01, 0xc4, 0x02, 0x10, 0x00, 0x00, 0x00, 0x00, 0x01, 0x01, 0xc0, 0xc2, 0x10, 0x11]
    case 12 => [0x02, 0x03, 0x11, 0x03, 0x03, 0x04, 0x00, 0x00, 0x14, 0x00, 0x02, 0x00, 0x00, 0xc6, 0xc8]
    case 13 => [0x02, 0x02, 0x02, 0x02, 0x00, 0x00, 0xff, 0xff, 0xff, 0xff, 0x00, 0x00, 0x00, 0xff, 0xca]
    case 14 => [0x01, 0x01, 0x01, 0x00, 0x06, 0x00, 0x04, 0x00, 0xc0, 0xc2, 0x01, 0x01, 0x03, 0x01, 0xff]
    case 15 => [0xff, 0x01, 0x00, 0x03, 0xc4, 0xc4, 0xc6, 0x03, 0x01, 0x01, 0x01, 0xff, 0x03, 0x03, 0x03]
    case 16 => [0xc8, 0x40, 0x00, 0x0a, 0x00, 0x04, 0x00, 0x00, 0x00, 0x00, 0x7f, 0x00, 0x33, 0x01, 0x00]
    case 17 => [0x00, 0x00, 0x00, 0x00, 0x00, 0xff, 0xbf, 0xff, 0xff, 0x00, 0x00, 0x00, 0x00, 0x07, 0x00]
    case 18 => [0x00, 0xff, 0x00, 0x00, 0x00, 0x00, 0x00, 0x00, 0x00, 0x00, 0x00, 0x00, 0x00, 0x00, 0x00]
    case 19 => [0x00, 0xff, 0xff, 0x00, 0x00, 0x00, 0xbf, 0x00, 0x00, 0x00, 0x00, 0x00, 0x00, 0x00, 0x00]
    case 20 => [0x7f, 0x00, 0x00, 0xff, 0x4a, 0x4a, 0x4a, 0x4a, 0x4b, 0x52, 0x4a, 0x4a, 0x4a, 0x4a, 0x4f]
    case 21 => [0x4c, 0x4a, 0x4a, 0x4a, 0x4a, 0x4a, 0x4a, 0x4a, 0x4a, 0x55, 0x45, 0x40, 0x4a, 0x4a, 0x4a]
    case 22 => [0x45, 0x59, 0x4d, 0x46, 0x4a, 0x5d, 0x4a, 0x4a, 0x4a, 0x4a, 0x4a, 0x4a, 0x4a, 0x4a, 0x4a]
    case 23 => [0x4a, 0x4a, 0x4a, 0x4a, 0x4a, 0x61, 0x63, 0x67, 0x4e, 0x4a, 0x4a, 0x6b, 0x6d, 0x4a, 0x4a]
    case 24 => [0x45, 0x6d, 0x4a, 0x4a, 0x44, 0x45, 0x4a, 0x4a, 0x00, 0x00, 0x00, 0x02, 0x0d, 0x06, 0x06]
    case 25 => [0x06, 0x06, 0x0e, 0x00, 0x00, 0x00, 0x00, 0x06, 0x06, 0x06, 0x00, 0x06, 0x06, 0x02, 0x06]
    case 26 => [0x00, 0x0a, 0x0a, 0x07, 0x07, 0x06, 0x02, 0x05, 0x05, 0x02, 0x02, 0x00, 0x00, 0x04, 0x04]
    case 27 => [0x04, 0x04, 0x00, 0x00, 0x00, 0x0e, 0x05, 0x06, 0x06, 0x06, 0x01, 0x06, 0x00, 0x00, 0x08]
    case 28 => [0x00, 0x10, 0x00, 0x18, 0x00, 0x20, 0x00, 0x28, 0x00, 0x30, 0x00, 0x80, 0x01, 0x82, 0x01]
    case 29 => [0x86, 0x00, 0xf6, 0xcf, 0xfe, 0x3f, 0xab, 0x00, 0xb0, 0x00, 0xb1, 0x00, 0xb3, 0x00, 0xba]
    case 30 => [0xf8, 0xbb, 0x00, 0xc0, 0x00, 0xc1, 0x00, 0xc7, 0xbf, 0x62, 0xff, 0x00, 0x8d, 0xff, 0x00]
    case 31 => [0xc4, 0xff, 0x00, 0xc5, 0xff, 0x00, 0xff, 0xff, 0xeb, 0x01, 0xff, 0x0e, 0x12, 0x08, 0x00]
    case 32 => [0x13, 0x09, 0x00, 0x16, 0x08, 0x00, 0x17, 0x09, 0x00, 0x2b, 0x09, 0x00, 0xae, 0xff, 0x07]
    case 33 => [0xb2, 0xff, 0x00, 0xb4, 0xff, 0x00, 0xb5, 0xff, 0x00, 0xc3, 0x01, 0x00, 0xc7, 0xff, 0xbf]
    case _ => [0xe7, 0x08, 0x00, 0xf0, 0x02, 0x00, 0x00, 0x00, 0x00, 0x00, 0x00, 0x00, 0x00, 0x00, 0x00]
  }

  const HDE32_TABLE: seq<Byte> := seq(TABLE_SIZE, i requires 0 <= i < TABLE_SIZE => Row(i / 15)[i % 15])

  lemma PrefixIndexRange(i: nat)
    requires DELTA_PREFIXES <= i < DELTA_PREFIXES + 64
    ensures HDE32_TABLE[i] <= 0x6d
  {
    var r, c := i / 15, i % 15;
    assert 20 <= r <= 24;
  }

  lemma OpcodeIndexRange(i: nat)
    requires 0 <= i < 64
    ensures 0x96 <= HDE32_TABLE[i] <= 0xc5 || HDE32_TABLE[i] == 0xd6
  {
    var r, c := i / 15, i % 15;
    assert 0 <= r <= 4;
  }

  lemma Opcode2IndexRange(i: nat)
    requires DELTA_OPCODES <= i < DELTA_OPCODES + 64
    ensures 0x50 <= HDE32_TABLE[i] <= 0xa3
  {
    var r, c := i / 15, i % 15;
    assert 4 <= r <= 9;
  }

  lemma OpcodeEntries(i: nat)
    requires 0x96 <= i < 0xc9 || 0xd6 <= i < 0xda
    ensures var b := HDE32_TABLE[i];
            b == C_ERROR || IsFlags(b) || b in {0xc0, 0xc2, 0xc4, 0xc6, 0xc8}
  {
    var r, c := i / 15, i % 15;
    assert 10 <= r <= 14;
  }

  lemma Opcode2Entries(i: nat)
    requires 0x9a <= i < 0xf1
    ensures var b := HDE32_TABLE[i];
            b == C_ERROR || IsFlags(b) || b in {0xc0, 0xc2, 0xc4, 0xc6, 0xc8, 0xca}
  {
    var r, c := i / 15, i % 15;
    assert 10 <= r <= 16;
  }

  lemma Groups()
    ensures HDE32_TABLE[64] == 0x03 && HDE32_TABLE[66] == 0x11
    ensures HDE32_TABLE[68] == HDE32_TABLE[70] == HDE32_TABLE[72] == 0x01
  {
    assert Row(4)[4] == 0x03 && Row(4)[6] == 0x11 && Row(4)[8] == Row(4)[10] == Row(4)[12] == 0x01;
  }

  lemma Groups2()
    ensures HDE32_TABLE[138] == HDE32_TABLE[140] == HDE32_TABLE[146] == 0x01
    ensures HDE32_TABLE[142] == HDE32_TABLE[144] == HDE32_TABLE[148] == 0x03
  {
    assert Row(9)[3] == Row(9)[5] == Row(9)[11] == 0x01;
    assert Row(9)[7] == Row(9)[9] == Row(9)[13] == 0x03;
  }

  lemma IndexesAreShaped()
    ensures PrefixIndexOk(HDE32_TABLE) && OpcodeIndexOk(HDE32_TABLE) && Opcode2IndexOk(HDE32_TABLE)
  {
    var t := HDE32_TABLE;
    forall i | DELTA_PREFIXES <= i < DELTA_PREFIXES + 64 ensures t[i] <= 0x6d { PrefixIndexRange(i); }
    forall i | 0 <= i < 64 ensures 0x96 <= t[i] <= 0xc5 || t[i] == 0xd6 { OpcodeIndexRange(i); }
    forall i | DELTA_OPCODES <= i < DELTA_OPCODES + 64 ensures 0x50 <= t[i] <= 0xa3 { Opcode2IndexRange(i); }
  }

  lemma EntryIsOk(t: seq<Byte>, i: nat)
    requires |t| == TABLE_SIZE && i < TABLE_SIZE
    requires t[i] == C_ERROR || IsFlags(t[i]) || t[i] in {0xc0, 0xc2, 0xc4, 0xc6, 0xc8}
    requires t[64] == 0x03 && t[66] == 0x11 && t[68] == t[70] == t[72] == 0x01
    ensures EntryOk(t, 0, t[i])
  {
  }

  lemma Entry2IsOk(t: seq<Byte>, i: nat)
    requires |t| == TABLE_SIZE && i < TABLE_SIZE
    requires t[i] == C_ERROR || IsFlags(t[i]) || t[i] in {0xc0, 0xc2, 0xc4, 0xc6, 0xc8, 0xca}
    requires t[138] == t[140] == t[146] == 0x01 && t[142] == t[144] == t[148] == 0x03
    ensures EntryOk(t, DELTA_OPCODES, t[i])
  {
  }

  lemma EntriesAreShaped()
    ensures OpcodeEntriesOk(HDE32_TABLE)
  {
    var t := HDE32_TABLE;
    Groups();
    forall i | 0x96 <= i < 0xc9 || 0xd6 <= i < 0xda ensures EntryOk(t, 0, t[i]) {
      OpcodeEntries(i);
      EntryIsOk(t, i);
    }
  }

  lemma Entries2AreShaped()
    ensures Opcode2EntriesOk(HDE32_TABLE)
  {
    var t := HDE32_TABLE;
    Groups2();
    forall i | 0x9a <= i < 0xf1 ensures EntryOk(t, DELTA_OPCODES, t[i]) {
      Opcode2Entries(i);
      Entry2IsOk(t, i);
    }
  }

  lemma JumpRowsAreShaped()
    requires OpcodeIndexOk(HDE32_TABLE)
    ensures JumpRowsOk(HDE32_TABLE)
  {
    Groups();
    assert Row(1)[11] == 0xb2 && Row(11)[13] == 0x10;
    assert Row(3)[1] == 0x96 && Row(10)[0] == 0x10;
    assert Row(4)[3] == 0xbf && Row(12)[14] == 0xc8;
  }

  /** The table has the shape every theorem about the decoder asks of it. */
  lemma TableIsShaped()
    ensures Shaped(HDE32_TABLE)
  {
    IndexesAreShaped();
    JumpRowsAreShaped();
    EntriesAreShaped();
    Entries2AreShaped();
  }

  /** A table of that shape; `HDE32_TABLE` is the one that ships. */
  type Table = t: seq<Byte> | Shaped(t) ghost witness (TableIsShaped(); HDE32_TABLE)
}
