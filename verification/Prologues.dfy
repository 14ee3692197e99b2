/**
  The hook lengths recorded in the source are right: whatever bytes follow the
  interlocked prologues, the decoder with the shipped table finds an instruction
  boundary exactly at the recorded prefix length.
 */
module Prologues {
  import opened OpcodeTable
  import opened Decoder
  import opened DecoderTheory
  import opened HookLength
  import opened CodeHooks
  import opened Machine

  // ------------------------------------------------------------------
  // Decoding unprefixed one-byte opcodes
  // ------------------------------------------------------------------

  predicate Ordinary(b: Byte) {
    !IsPrefix(b) && b != 0x0f && !(0xa0 <= b <= 0xa3) && b < 0xd9 && b != 0x8c && b != 0x8e
  }

  lemma HeadIsClean(t: Table, code: Mem, at: Word, e: Entry)
    requires Ordinary(Peek(code, at, 0)) && e == EntryOf(t, 0, Peek(code, at, 0)) && !e.bad && e.mask == 0
    ensures var b := Peek(code, at, 0);
            Head(t, code, at) == State(BLANK.(opcode := b, faults := NO_FAULTS), NO_PREFS.(none := true), b,
                                       FlowOf(e.flags), 0, 1)
  {
    hide EntryOf, Lookup, Shaped, FlowOf;
    NoPrefix(t, code, at);
  }

  /** An opcode without operands is one byte. */
  lemma OneByte(t: Table, code: Mem, at: Word)
    requires Ordinary(Peek(code, at, 0)) && EntryOf(t, 0, Peek(code, at, 0)) == Entry(false, 0, 0)
    ensures var i := Decode(t, code, at); i.len == 1 && !i.faults.error && !i.imms.relative
  {
    HeadIsClean(t, code, at, Entry(false, 0, 0));
    OneByteTail(t, code, at);
  }

  lemma OneByteTail(t: Table, code: Mem, at: Word)
    requires var h := Head(t, code, at);
             h.cf == FlowOf(0) && h.p == 1 && !h.pref.lock && h.hs.faults == NO_FAULTS && h.hs.imms == NO_IMMS
    ensures var i := Decode(t, code, at); i.len == 1 && !i.faults.error && !i.imms.relative
  {
    hide Head, Shaped;
  }

  /** The state behind a faultless unprefixed opcode. */
  predicate CleanState(s: State, b: Byte, flags: Byte, p: nat) {
    && s.opcode == b && s.cf == FlowOf(flags) && s.p == p && s.pref == NO_PREFS.(none := true) && s.mask == 0
    && s.hs.opcode2 == 0 && s.hs.faults == NO_FAULTS && s.hs.imms == NO_IMMS
  }

  /** Register to register, or a 32-bit displacement alone. */
  predicate PlainForm(t: Table, b: Byte, m: Fields, size: nat)
    requires m.mid < 8
  {
    || (m.top == 3 && size == 2
        && !MemOnly(t, DELTA_OP_ONLY_MEM, DELTA_OP2_ONLY_MEM, b, NO_PREFS.(none := true), m.mid))
    || (m.top == 0 && m.low == 5 && size == 6)
  }

  lemma NoOperandFault(t: Table, s: State, b: Byte, flags: Byte, m: Fields, size: nat)
    requires m.mid < 8 && m.low < 8 && CleanState(s, b, flags, 1) && Ordinary(b) && PlainForm(t, b, m, size)
    ensures CheckModRm(t, s, m) == NO_FAULTS
  {
    hide MemOnly, Shaped, FlowOf;
  }

  lemma FormSize(mem: Mem, at: Word, m: Fields, size: nat)
    requires (m.top == 3 && size == 2) || (m.top == 0 && m.low == 5 && size == 6)
    ensures Addressing(mem, at, NO_PREFS.(none := true), m.top, m.low, 2).p == size
  {
    hide PeekN, Store;
  }

  lemma BodyIsClean(t: Table, mem: Mem, at: Word, s: State, b: Byte, flags: Byte, size: nat)
    requires CleanState(s, b, flags, 1) && Ordinary(b) && flags in {0x01, 0x03, 0x11}
    requires PlainForm(t, b, Split(Peek(mem, at, 1)), size)
    ensures CleanState(ModRmSection(t, mem, at, s), b, flags, size)
  {
    hide MemOnly, Shaped, CheckModRm, Addressing, Split;
    var m := Split(Peek(mem, at, 1));
    NoOperandFault(t, s, b, flags, m, size);
    FormSize(mem, at, m, size);
  }

  function ImmSize(flags: Byte): nat { if flags == 0x03 then 1 else if flags == 0x11 then 4 else 0 }

  lemma ImmTail(mem: Mem, at: Word, s: State, b: Byte, flags: Byte, size: nat)
    requires flags in {0x01, 0x03, 0x11} && CleanState(s, b, flags, size)
    ensures var r := ImmSection(mem, at, s);
            r.p == size + ImmSize(flags) && r.hs.faults == NO_FAULTS && !r.hs.imms.relative
  {
    hide PeekN, Store;
  }

  /** A two-operand opcode: ModRM, perhaps a displacement, perhaps an immediate. */
  lemma {:induction false} WithModRm(t: Table, code: Mem, at: Word, flags: Byte, size: nat)
    requires var b := Peek(code, at, 0); Ordinary(b) && EntryOf(t, 0, b) == Entry(false, flags, 0)
    requires flags in {0x01, 0x03, 0x11} && PlainForm(t, Peek(code, at, 0), Split(Peek(code, at, 1)), size)
    ensures var i := Decode(t, code, at);
            i.len == size + ImmSize(flags) && !i.faults.error && !i.imms.relative
  {
    hide Head, ModRmSection, ImmSection, MemOnly, Shaped, EntryOf, Split, IsPrefix, FlowOf;
    var b := Peek(code, at, 0);
    HeadIsClean(t, code, at, Entry(false, flags, 0));
    BodyIsClean(t, code, at, Head(t, code, at), b, flags, size);
    ImmTail(code, at, Body(t, code, at), b, flags, size);
  }

  // ------------------------------------------------------------------
  // The opcodes of the recorded prologues
  // ------------------------------------------------------------------

  /** `push` of a register, `mov r32, r/m32` and the 0x81 and 0x83 groups. */
  predicate PrologueRowsOk(t: Table) {
    && (forall b: Byte | b in {0x53, 0x55, 0x56, 0x57} :: EntryOf(t, 0, b) == Entry(false, 0, 0))
    && EntryOf(t, 0, 0x8b) == Entry(false, 0x01, 0)
    && EntryOf(t, 0, 0x83) == Entry(false, 0x03, 0)
    && EntryOf(t, 0, 0x81) == Entry(false, 0x11, 0)
    && t[459] == 0x62 && t[462] == 0x8d && t[465] == 0xc4 && t[468] == 0xc5 && t[471] == 0xff
  }

  lemma ShippedRows()
    ensures var t := HDE32_TABLE;
            && t[20] == t[21] == 0xaa && t[171] == t[172] == t[173] == 0
            && t[34] == 0xa3 && t[166] == 1 && t[32] == 0xb5 && t[184] == 3 && t[182] == 0x11
            && t[459] == 0x62 && t[462] == 0x8d && t[465] == 0xc4 && t[468] == 0xc5 && t[471] == 0xff
  {
    assert Row(1)[5] == Row(1)[6] == 0xaa && Row(11)[6] == Row(11)[7] == Row(11)[8] == 0;
    assert Row(2)[4] == 0xa3 && Row(11)[1] == 1 && Row(2)[2] == 0xb5 && Row(12)[4] == 3 && Row(12)[2] == 0x11;
    assert Row(30)[9] == 0x62 && Row(30)[12] == 0x8d && Row(31)[0] == 0xc4 && Row(31)[3] == 0xc5 && Row(31)[6] == 0xff;
  }

  lemma RowsDecide(t: Table)
    requires t[20] == t[21] == 0xaa && t[171] == t[172] == t[173] == 0
    requires t[34] == 0xa3 && t[166] == 1 && t[32] == 0xb5 && t[184] == 3 && t[182] == 0x11
    requires t[459] == 0x62 && t[462] == 0x8d && t[465] == 0xc4 && t[468] == 0xc5 && t[471] == 0xff
    ensures PrologueRowsOk(t)
  {
    hide Shaped;
  }

  /** The shipped table has these rows. */
  lemma ShippedTableHasRows()
    ensures Shaped(HDE32_TABLE) && PrologueRowsOk(HDE32_TABLE)
  {
    hide Shaped, PrologueRowsOk;
    TableIsShaped();
    ShippedRows();
    RowsDecide(HDE32_TABLE);
  }

  lemma {:induction false} RegisterFormAllowed(t: Table, b: Byte, reg: Byte)
    requires PrologueRowsOk(t) && b !in {0x62, 0x8d, 0xc4, 0xc5, 0xff} && reg < 8
    ensures !MemOnly(t, DELTA_OP_ONLY_MEM, DELTA_OP2_ONLY_MEM, b, NO_PREFS.(none := true), reg)
  {
    hide Shaped, EntryOf;
    var p := NO_PREFS.(none := true);
    assert !MemOnly(t, 474, 474, b, p, reg);
    assert !MemOnly(t, 471, 474, b, p, reg);
    assert !MemOnly(t, 468, 474, b, p, reg);
    assert !MemOnly(t, 465, 474, b, p, reg);
    assert !MemOnly(t, 462, 474, b, p, reg);
  }

  // ------------------------------------------------------------------
  // The recorded prefix lengths
  // ------------------------------------------------------------------

  /** One instruction of a tiling, one that falls through. */
  predicate Is(t: Table, code: Mem, at: Word, n: nat, len: nat) {
    Decode(t, code, Add(at, n)).len == len && StraightAt(t, code, Add(at, n))
  }

  lemma FallsThrough(t: Table, code: Mem, at: Word)
    requires Ordinary(Peek(code, at, 0)) && Peek(code, at, 0) in {0x53, 0x55, 0x56, 0x57, 0x81, 0x83, 0x8b}
    requires var i := Decode(t, code, at); !i.faults.error && !i.imms.relative
    ensures StraightAt(t, code, at)
  {
    hide Decode;
    LengthPositive(t, code, at);
    PlainOpcode(t, code, at);
  }

  lemma TilesOver(t: Table, code: Mem, at: Word, n: nat, len: nat, want: nat)
    requires Is(t, code, at, n, len) && len > 0 && n < want
    ensures Tiles(t, code, at, n, want) == Tiles(t, code, at, n + len, want)
    ensures Straight(t, code, at, n, want) == Straight(t, code, at, n + len, want)
  {
    hide Decode;
  }

  lemma PushAt(t: Table, code: Mem, at: Word, n: nat)
    requires PrologueRowsOk(t) && Peek(code, at, n) in {0x53, 0x55, 0x56, 0x57}
    ensures Is(t, code, at, n, 1)
  {
    hide Decode, EntryOf, Shaped, StraightAt;
    PeekAdd(code, at, n, 0);
    OneByte(t, code, Add(at, n));
    FallsThrough(t, code, Add(at, n));
  }

  /** `mov ebp, esp`. */
  lemma MovEbpEspAt(t: Table, code: Mem, at: Word, n: nat)
    requires PrologueRowsOk(t) && Peek(code, at, n) == 0x8B && Peek(code, at, n + 1) == 0xEC
    ensures Is(t, code, at, n, 2)
  {
    hide Decode, EntryOf, Shaped, MemOnly, StraightAt;
    PeekAdd(code, at, n, 0);
    PeekAdd(code, at, n, 1);
    RegisterFormAllowed(t, 0x8B, 5);
    WithModRm(t, code, Add(at, n), 0x01, 2);
    FallsThrough(t, code, Add(at, n));
  }

  /** `mov edx, [disp32]`. */
  lemma MovEdxAt(t: Table, code: Mem, at: Word, n: nat)
    requires PrologueRowsOk(t) && Peek(code, at, n) == 0x8B && Peek(code, at, n + 1) == 0x15
    ensures Is(t, code, at, n, 6)
  {
    hide Decode, EntryOf, Shaped, MemOnly, StraightAt;
    PeekAdd(code, at, n, 0);
    PeekAdd(code, at, n, 1);
    WithModRm(t, code, Add(at, n), 0x01, 6);
    FallsThrough(t, code, Add(at, n));
  }

  /** `sub esp, imm8` and `sub esp, imm32`. */
  lemma SubEspAt(t: Table, code: Mem, at: Word, n: nat)
    requires PrologueRowsOk(t) && Peek(code, at, n) in {0x81, 0x83} && Peek(code, at, n + 1) == 0xEC
    ensures Is(t, code, at, n, if Peek(code, at, n) == 0x83 then 3 else 6)
  {
    hide Decode, EntryOf, Shaped, MemOnly, StraightAt;
    var b := Peek(code, at, n);
    PeekAdd(code, at, n, 0);
    PeekAdd(code, at, n, 1);
    RegisterFormAllowed(t, b, 5);
    WithModRm(t, code, Add(at, n), if b == 0x83 then 0x03 else 0x11, 2);
    FallsThrough(t, code, Add(at, n));
  }

  /** push ebp; mov ebp, esp; sub esp, imm8: a hook of 6 bytes, not of 5. */
  lemma {:induction false} SmallFrame(t: Table, code: Mem, at: Word)
    requires PrologueRowsOk(t) && at != 0 && Reads(code, at, [0x55, 0x8B, 0xEC, 0x83, 0xEC])
    ensures LenOk(t, code, at, 6) && !LenOk(t, code, at, 5) && Straight(t, code, at, 0, 6)
  {
    hide Decode, PrologueRowsOk, Is;
    var b := [0x55, 0x8B, 0xEC, 0x83, 0xEC];
    assert forall i: nat | i < 5 :: Peek(code, at, i) == b[i];
    PushAt(t, code, at, 0);
    MovEbpEspAt(t, code, at, 1);
    SubEspAt(t, code, at, 3);
    forall want | want == 5 || want == 6
      ensures Tiles(t, code, at, 0, want) == Tiles(t, code, at, 6, want)
      ensures want == 6 ==> Straight(t, code, at, 0, 6)
    {
      TilesOver(t, code, at, 0, 1, want);
      TilesOver(t, code, at, 1, 2, want);
      TilesOver(t, code, at, 3, 3, want);
    }
  }

  /** push ebp; mov ebp, esp; sub esp, imm32: a hook of 9 bytes, not of 5. */
  lemma {:induction false} LargeFrame(t: Table, code: Mem, at: Word)
    requires PrologueRowsOk(t) && at != 0 && Reads(code, at, [0x55, 0x8B, 0xEC, 0x81, 0xEC])
    ensures LenOk(t, code, at, 9) && !LenOk(t, code, at, 5) && Straight(t, code, at, 0, 9)
  {
    hide Decode, PrologueRowsOk, Is;
    var b := [0x55, 0x8B, 0xEC, 0x81, 0xEC];
    assert forall i: nat | i < 5 :: Peek(code, at, i) == b[i];
    PushAt(t, code, at, 0);
    MovEbpEspAt(t, code, at, 1);
    SubEspAt(t, code, at, 3);
    forall want | want == 5 || want == 9
      ensures Tiles(t, code, at, 0, want) == Tiles(t, code, at, 9, want)
      ensures want == 9 ==> Straight(t, code, at, 0, 9)
    {
      TilesOver(t, code, at, 0, 1, want);
      TilesOver(t, code, at, 1, 2, want);
      TilesOver(t, code, at, 3, 6, want);
    }
  }

  /** push edi; push esi; push ebx; mov edx, [disp32]: 9 bytes, not 5. */
  lemma {:induction false} ClassLookup(t: Table, code: Mem, at: Word)
    requires PrologueRowsOk(t) && at != 0 && Reads(code, at, [0x57, 0x56, 0x53, 0x8B, 0x15])
    ensures LenOk(t, code, at, 9) && !LenOk(t, code, at, 5) && Straight(t, code, at, 0, 9)
  {
    hide Decode, PrologueRowsOk, Is;
    var b := [0x57, 0x56, 0x53, 0x8B, 0x15];
    assert forall i: nat | i < 5 :: Peek(code, at, i) == b[i];
    PushAt(t, code, at, 0);
    PushAt(t, code, at, 1);
    PushAt(t, code, at, 2);
    MovEdxAt(t, code, at, 3);
    forall want | want == 5 || want == 9
      ensures Tiles(t, code, at, 0, want) == Tiles(t, code, at, 9, want)
      ensures want == 9 ==> Straight(t, code, at, 0, 9)
    {
      TilesOver(t, code, at, 0, 1, want);
      TilesOver(t, code, at, 1, 1, want);
      TilesOver(t, code, at, 2, 1, want);
      TilesOver(t, code, at, 3, 6, want);
    }
  }
}
