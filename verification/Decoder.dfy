/**
  The instruction-length decoder `hde32_disasm`.

  The decoder is split where the C function has its sections: the prefix loop,
  the opcode lookup, the ModRM section and the immediates.  Each section is a
  function from decoder state to decoder state; the methods run the C loops and
  are proved equal to them.

  Memory is a function of 32-bit addresses; reading past 2^32 wraps.
 */
module Decoder {
  import opened OpcodeTable

  type Word = x: int | 0 <= x < 0x1_0000_0000
  type Mem = Word -> Byte

  /** A 4-byte union such as `imm` and `disp`, least significant byte first. */
  type Union4 = s: seq<Byte> | |s| == 4 witness [0, 0, 0, 0]

  function Peek(mem: Mem, at: Word, i: nat): Byte {
    mem((at + i) % 0x1_0000_0000)
  }

  function PeekN(mem: Mem, at: Word, i: nat, n: nat): (r: seq<Byte>)
    ensures |r| == n
  {
    seq<Byte>(n, k requires 0 <= k < n => Peek(mem, at, i + k))
  }

  function Pow2(k: nat): (r: nat)
    requires k < 8
    ensures r > 0
  {
    match k
    case 0 => 1 case 1 => 2 case 2 => 4 case 3 => 8
    case 4 => 16 case 5 => 32 case 6 => 64 case _ => 128
  }

  /** Bit `k` of a byte; `(b << k) & 0x80` tests bit `7 - k`. */
  predicate Bit(b: Byte, k: nat)
    requires k < 8
  {
    b / Pow2(k) % 2 == 1
  }

  // ------------------------------------------------------------------
  // Decoder state
  // ------------------------------------------------------------------

  /** The bits of `pref`. */
  datatype Prefs = Prefs(none: bool, f2: bool, f3: bool, p66: bool, p67: bool, lock: bool, seg: bool)

  const NO_PREFS := Prefs(false, false, false, false, false, false, false)

  /** `mask & pref` is nonzero. */
  predicate Meets(mask: Byte, q: Prefs) {
    || (Bit(mask, 0) && q.none) || (Bit(mask, 1) && q.f2) || (Bit(mask, 2) && q.f3)
    || (Bit(mask, 3) && q.p66) || (Bit(mask, 4) && q.p67) || (Bit(mask, 5) && q.lock)
    || (Bit(mask, 6) && q.seg)
  }

  // The word `hs->flags`, by the section that sets the bits; the bits of
  // `pref << 23` are the field `prefixes` of `Inst`.

  /** F_MODRM, F_SIB and F_DISPn. */
  datatype Form = Form(modrm: bool, sib: bool, disp8: bool, disp16: bool, disp32: bool)

  /** F_IMMn, F_2IMM16 and F_RELATIVE. */
  datatype Imms = Imms(imm8: bool, imm16: bool, imm32: bool, twoImm16: bool, relative: bool)

  /** F_ERROR and its reasons. */
  datatype Faults = Faults(error: bool, opcode: bool, length: bool, lock: bool, operand: bool)

  const NO_FORM := Form(false, false, false, false, false)
  const NO_IMMS := Imms(false, false, false, false, false)
  const NO_FAULTS := Faults(false, false, false, false, false)

  /** The prefix bytes a `struct hde32s` records. */
  datatype PrefixBytes = PrefixBytes(rep: Byte, lock: Byte, seg: Byte, p66: Byte, p67: Byte)

  /** A ModRM or SIB byte and its three fields. */
  datatype Fields = Fields(whole: Byte, top: Byte, mid: Byte, low: Byte)

  /** `struct hde32s`; `modrm` holds mod, reg and rm, `sib` holds scale, index and base. */
  datatype Inst = Inst(
    len: Byte, pre: PrefixBytes, opcode: Byte, opcode2: Byte, modrm: Fields, sib: Fields,
    imm: Union4, disp: Union4, prefixes: Prefs, form: Form, imms: Imms, faults: Faults)

  const NO_FIELDS := Fields(0, 0, 0, 0)

  /** After `memset`. */
  const BLANK := Inst(0, PrefixBytes(0, 0, 0, 0, 0), 0, 0, NO_FIELDS, NO_FIELDS,
                      [0, 0, 0, 0], [0, 0, 0, 0], NO_PREFS, NO_FORM, NO_IMMS, NO_FAULTS)

  function Split(c: Byte): (f: Fields)
    ensures f.top < 4 && f.mid < 8 && f.low < 8
    ensures c == f.top * 64 + f.mid * 8 + f.low
  {
    Fields(c, c / 64, c % 64 / 8, c % 8)
  }

  function BadOpcode(f: Faults): Faults { f.(error := true, opcode := true) }

  function BadLock(f: Faults): Faults { f.(error := true, lock := true) }

  function BadOperand(f: Faults): Faults { f.(error := true, operand := true) }

  /** Store the low bytes of a union. */
  function Store(u: Union4, low: seq<Byte>): Union4
    requires |low| <= 4
  {
    low + u[|low|..]
  }

  // ------------------------------------------------------------------
  // Prefixes
  // ------------------------------------------------------------------

  predicate IsPrefix(c: Byte) {
    c in {0xf3, 0xf2, 0xf0, 0x26, 0x2e, 0x36, 0x3e, 0x64, 0x65, 0x66, 0x67}
  }

  /** The loop state of the prefix scan: `c` is the byte read last. */
  datatype Scan = Scan(pre: PrefixBytes, pref: Prefs, c: Byte, p: nat)

  /** How many bytes the prefix loop tries. */
  const MAX_SCAN: nat := 16

  const SCAN_START := Scan(PrefixBytes(0, 0, 0, 0, 0), NO_PREFS, 0, 0)

  function AddPrefix(s: Scan, c: Byte): Scan
    requires IsPrefix(c)
  {
    var s1 := s.(c := c, p := s.p + 1);
    match c
    case 0xf3 => s1.(pre := s.pre.(rep := c), pref := s.pref.(f3 := true))
    case 0xf2 => s1.(pre := s.pre.(rep := c), pref := s.pref.(f2 := true))
    case 0xf0 => s1.(pre := s.pre.(lock := c), pref := s.pref.(lock := true))
    case 0x66 => s1.(pre := s.pre.(p66 := c), pref := s.pref.(p66 := true))
    case 0x67 => s1.(pre := s.pre.(p67 := c), pref := s.pref.(p67 := true))
    case _ => s1.(pre := s.pre.(seg := c), pref := s.pref.(seg := true))
  }

  /** At most `x` more bytes are tried; the first that is no prefix ends the scan. */
  function ScanPrefixes(mem: Mem, at: Word, x: nat, s: Scan): Scan
    decreases x
  {
    if x == 0 then s
    else
      var c := Peek(mem, at, s.p);
      if IsPrefix(c) then ScanPrefixes(mem, at, x - 1, AddPrefix(s, c))
      else s.(c := c, p := s.p + 1)
  }

  method ReadPrefixes(mem: Mem, at: Word) returns (s: Scan)
    ensures s == ScanPrefixes(mem, at, MAX_SCAN, SCAN_START)
  {
    s := SCAN_START;
    var x := MAX_SCAN;
    while x != 0
      invariant ScanPrefixes(mem, at, x, s) == ScanPrefixes(mem, at, MAX_SCAN, SCAN_START)
    {
      var c := Peek(mem, at, s.p);
      if IsPrefix(c) {
        s := AddPrefix(s, c);
      } else {
        s := s.(c := c, p := s.p + 1);
        return;
      }
      x := x - 1;
    }
  }

  // ------------------------------------------------------------------
  // Opcode
  // ------------------------------------------------------------------

  /** The bits of `cflags`. */
  datatype Flow = Flow(modrm: bool, imm8: bool, imm16: bool, immP66: bool, rel8: bool, rel32: bool)

  function FlowOf(b: Byte): Flow {
    Flow(Bit(b, 0), Bit(b, 1), Bit(b, 2), Bit(b, 4), Bit(b, 5), Bit(b, 6))
  }

  /** The variables live between the sections: `mask` is `x`, the register mask of
      an opcode group, and `p` the read cursor. */
  datatype State = State(hs: Inst, pref: Prefs, opcode: Byte, cf: Flow, mask: Byte, p: nat)

  predicate Base(base: nat) {
    base == 0 || base == DELTA_OPCODES || base == DELTA_PREFIXES
  }

  /** `ht[ht[op / 4] + op % 4]`; no lookup leaves the table. */
  function Lookup(t: Table, base: nat, op: Byte): Byte
    requires Base(base)
  {
    assert t[base + op / 4] <= 0xd6;
    t[base + t[base + op / 4] + op % 4]
  }

  /** The flag byte and register mask of an opcode, groups resolved. */
  datatype Entry = Entry(bad: bool, flags: Byte, mask: Byte)

  function EntryOf(t: Table, base: nat, op: Byte): Entry
    requires base == 0 || base == DELTA_OPCODES
  {
    var raw := Lookup(t, base, op);
    if raw == C_ERROR then Entry(true, if op == 0x24 || op == 0x26 then 1 else 0, 0)
    else if raw >= 0x80 then Entry(false, t[base + raw % 128], t[base + raw % 128 + 1])
    else Entry(false, raw, 0)
  }

  function OpcodeSection(t: Table, mem: Mem, at: Word, s: Scan): State {
    var two := s.c == 0x0f;
    var c := if two then Peek(mem, at, s.p) else s.c;
    var pref0 := if s.pref == NO_PREFS then s.pref.(none := true) else s.pref;
    var pref := if 0xa0 <= s.c <= 0xa3 then pref0.(p66 := pref0.p67) else pref0;
    var opcode2 := if two then c else 0;
    var e := EntryOf(t, if two then DELTA_OPCODES else 0, c);
    var bad := e.bad || (opcode2 != 0 && Meets(Lookup(t, DELTA_PREFIXES, c), pref));
    var hs := BLANK.(pre := s.pre, prefixes := s.pref, opcode := s.c, opcode2 := opcode2,
                     faults := if bad then BadOpcode(NO_FAULTS) else NO_FAULTS);
    State(hs, pref, c, FlowOf(e.flags), e.mask, if two then s.p + 1 else s.p)
  }

  method ReadEntry(t: Table, ht: nat, opcode: Byte) returns (e: Entry)
    requires ht == 0 || ht == DELTA_OPCODES
    ensures e == EntryOf(t, ht, opcode)
  {
    var bad := false;
    var cflags := Lookup(t, ht, opcode);
    if cflags == C_ERROR {
      bad := true;
      cflags := 0;
      if opcode == 0x24 || opcode == 0x26 {
        cflags := cflags + 1;
      }
    }
    var x := 0;
    if cflags >= 0x80 {
      var g := ht + cflags % 128;
      cflags := t[g];
      x := t[g + 1];
    }
    e := Entry(bad, cflags, x);
  }

  method ReadOpcode(t: Table, mem: Mem, at: Word, s: Scan) returns (r: State)
    ensures r == OpcodeSection(t, mem, at, s)
  {
    hide Shaped, EntryOf, Lookup;
    var pref, c, p := s.pref, s.c, s.p;
    var ht := 0;
    var hs := BLANK.(pre := s.pre, prefixes := pref);
    if pref == NO_PREFS {
      pref := pref.(none := true);
    }
    hs := hs.(opcode := c);
    if c == 0x0f {
      c := Peek(mem, at, p);
      p := p + 1;
      hs := hs.(opcode2 := c);
      ht := DELTA_OPCODES;
    } else if 0xa0 <= c <= 0xa3 {
      if pref.p67 {
        pref := pref.(p66 := true);
      } else {
        pref := pref.(p66 := false);
      }
    }
    var e := ReadEntry(t, ht, c);
    if e.bad {
      hs := hs.(faults := BadOpcode(hs.faults));
    }
    if hs.opcode2 != 0 {
      if Meets(Lookup(t, DELTA_PREFIXES, c), pref) {
        hs := hs.(faults := BadOpcode(hs.faults));
      }
    }
    r := State(hs, pref, c, FlowOf(e.flags), e.mask, p);
  }

  // ------------------------------------------------------------------
  // ModRM, SIB and displacement
  // ------------------------------------------------------------------

  /** The lock table from entry `i`: is `lock` allowed before this opcode?  Rows
      are pairs, so the scan lands on `end`. */
  predicate LockAllowed(t: Table, i: nat, end: nat, op: Byte, reg: Byte)
    requires i <= end <= TABLE_SIZE && (end - i) % 2 == 0 && reg < 8
    decreases end - i
  {
    if i == end then false
    else if t[i] == op then !Bit(t[i + 1], 7 - reg)
    else LockAllowed(t, i + 2, end, op, reg)
  }

  method ScanLockTable(t: Table, start: nat, end: nat, op: Byte, reg: Byte) returns (ok: bool)
    requires start <= end <= TABLE_SIZE && (end - start) % 2 == 0 && reg < 8
    ensures ok == LockAllowed(t, start, end, op, reg)
  {
    hide Bit;
    var ht := start;
    while ht != end
      invariant start <= ht <= end && (end - ht) % 2 == 0
      invariant LockAllowed(t, ht, end, op, reg) == LockAllowed(t, start, end, op, reg)
      decreases end - ht
    {
      if t[ht] == op {
        return !Bit(t[ht + 1], 7 - reg);
      }
      ht := ht + 2;
    }
    ok := false;
  }

  predicate LockOk(t: Table, two: bool, opcode: Byte, reg: Byte)
    requires reg < 8
  {
    if two then LockAllowed(t, DELTA_OP2_LOCK_OK, DELTA_OP_ONLY_MEM, opcode, reg)
    else LockAllowed(t, DELTA_OP_LOCK_OK, DELTA_OP2_LOCK_OK, opcode - opcode % 2, reg)
  }

  /** The memory-only table from entry `i`: is the register form invalid?  Rows are
      triples. */
  predicate MemOnly(t: Table, i: nat, end: nat, op: Byte, pref: Prefs, reg: Byte)
    requires i <= end <= TABLE_SIZE && (end - i) % 3 == 0 && reg < 8
    decreases end - i
  {
    if i == end then false
    else if t[i] == op then Meets(t[i + 1], pref) && !Bit(t[i + 2], 7 - reg)
    else MemOnly(t, i + 3, end, op, pref, reg)
  }

  predicate NeedsMemory(t: Table, two: bool, opcode: Byte, pref: Prefs, reg: Byte)
    requires reg < 8
  {
    if two then MemOnly(t, DELTA_OP2_ONLY_MEM, TABLE_SIZE, opcode, pref, reg)
    else MemOnly(t, DELTA_OP_ONLY_MEM, DELTA_OP2_ONLY_MEM, opcode, pref, reg)
  }

  method ScanMemTable(t: Table, start: nat, end: nat, op: Byte, pref: Prefs, reg: Byte) returns (bad: bool)
    requires start <= end <= TABLE_SIZE && (end - start) % 3 == 0 && reg < 8
    ensures bad == MemOnly(t, start, end, op, pref, reg)
  {
    hide Meets, Bit;
    var ht := start;
    while ht != end
      invariant start <= ht <= end && (end - ht) % 3 == 0
      invariant MemOnly(t, ht, end, op, pref, reg) == MemOnly(t, start, end, op, pref, reg)
      decreases end - ht
    {
      if t[ht] == op {
        return Meets(t[ht + 1], pref) && !Bit(t[ht + 2], 7 - reg);
      }
      ht := ht + 3;
    }
    bad := false;
  }

  /** Control and debug register moves ignore `mod`. */
  function EffectiveMod(two: bool, opcode: Byte, mod: Byte): Byte {
    if two && 0x20 <= opcode <= 0x23 then 3 else mod
  }

  /** The operand checks; `mod` is the one in the ModRM byte. */
  predicate OperandBad(t: Table, two: bool, opcode: Byte, pref: Prefs, mod: Byte, reg: Byte)
    requires reg < 8
  {
    if two && (opcode == 0x20 || opcode == 0x22) then reg > 4 || reg == 1
    else if two && (opcode == 0x21 || opcode == 0x23) then reg == 4 || reg == 5
    else if !two && opcode == 0x8c then reg > 5
    else if !two && opcode == 0x8e then reg == 1 || reg > 5
    else if mod == 3 then NeedsMemory(t, two, opcode, pref, reg)
    else if two && (opcode == 0x50 || opcode == 0xd7 || opcode == 0xf7) then pref.none || pref.p66
    else if two && opcode == 0xd6 then pref.f2 || pref.f3
    else two && opcode == 0xc5
  }

  /** Floating-point opcodes have their own validity bits. */
  predicate FpuBad(t: Table, opcode: Byte, mod: Byte, reg: Byte, rm: Byte)
    requires 0xd9 <= opcode <= 0xdf && reg < 8 && rm < 8
  {
    if mod == 3 then Bit(t[DELTA_FPU_MODRM + (opcode - 0xd9) * 8 + reg], 7 - rm)
    else Bit(t[DELTA_FPU_REG + (opcode - 0xd9)], 7 - reg)
  }

  /** How many displacement bytes the addressing form takes, before any SIB. */
  function DispSize(p67: bool, mod: Byte, rm: Byte): nat {
    match mod
    case 0 => if p67 then (if rm == 6 then 2 else 0) else if rm == 5 then 4 else 0
    case 1 => 1
    case 2 => if p67 then 2 else 4
    case _ => 0
  }

  /** Opcode validity: the group's register mask, then the floating-point table. */
  predicate ModRmOpcodeBad(t: Table, mask: Byte, two: bool, opcode: Byte, m: Fields)
    requires m.mid < 8 && m.low < 8
  {
    || (mask != 0 && Bit(mask, 7 - m.mid))
    || (!two && 0xd9 <= opcode <= 0xdf && FpuBad(t, opcode, m.top, m.mid, m.low))
  }

  predicate LockBad(t: Table, two: bool, opcode: Byte, mod: Byte, reg: Byte)
    requires reg < 8
  {
    mod == 3 || !LockOk(t, two, opcode, reg)
  }

  /** The validity checks of the ModRM section. */
  function CheckModRm(t: Table, s: State, m: Fields): (f: Faults)
    requires m.mid < 8 && m.low < 8
    ensures f.length == s.hs.faults.length
  {
    var two := s.hs.opcode2 != 0;
    var f0 := s.hs.faults;
    var f1 := if ModRmOpcodeBad(t, s.mask, two, s.opcode, m) then BadOpcode(f0) else f0;
    var f2 := if s.pref.lock && LockBad(t, two, s.opcode, m.top, m.mid) then BadLock(f1) else f1;
    if OperandBad(t, two, s.opcode, s.pref, m.top, m.mid) then BadOperand(f2) else f2
  }

  /** `test` has an immediate that the other members of its group lack. */
  function GroupImmediate(cf: Flow, opcode: Byte, reg: Byte): Flow {
    if reg <= 1 && opcode == 0xf6 then cf.(imm8 := true)
    else if reg <= 1 && opcode == 0xf7 then cf.(immP66 := true)
    else cf
  }

  predicate HasSib(pref: Prefs, mod: Byte, rm: Byte) {
    mod != 3 && rm == 4 && !pref.p67
  }

  /** Which displacement flag a size sets. */
  function DispForm(sib: bool, d: nat): Form {
    Form(true, sib, d == 1, d == 2, d == 4)
  }

  /** SIB byte, displacement, and the cursor after them. */
  datatype Addressed = Addressed(sib: Fields, disp: Union4, form: Form, p: nat)

  function Addressing(mem: Mem, at: Word, pref: Prefs, mod: Byte, rm: Byte, p: nat): Addressed {
    var sib := HasSib(pref, mod, rm);
    var sf := if sib then Split(Peek(mem, at, p)) else NO_FIELDS;
    var d := if sib && sf.low == 5 && mod % 2 == 0 then 4 else DispSize(pref.p67, mod, rm);
    var p1 := if sib then p + 1 else p;
    Addressed(sf, Store([0, 0, 0, 0], PeekN(mem, at, p1, d)), DispForm(sib, d), p1 + d)
  }

  function ModRmSection(t: Table, mem: Mem, at: Word, s: State): State {
    if !s.cf.modrm then
      if s.pref.lock then s.(hs := s.hs.(faults := BadLock(s.hs.faults))) else s
    else
      var m := Split(Peek(mem, at, s.p));
      Addressee(t, s, m, Addressing(mem, at, s.pref, ModOf(s, m), m.low, s.p + 1))
  }

  /** The `mod` the addressing form goes by. */
  function ModOf(s: State, m: Fields): Byte {
    EffectiveMod(s.hs.opcode2 != 0, s.opcode, m.top)
  }

  /** The state once the ModRM byte and the address are known. */
  function Addressee(t: Table, s: State, m: Fields, a: Addressed): State
    requires m.mid < 8 && m.low < 8
  {
    s.(hs := s.hs.(modrm := m, sib := a.sib, disp := a.disp, form := a.form, faults := CheckModRm(t, s, m)),
       cf := GroupImmediate(s.cf, s.opcode, m.mid), p := a.p)
  }

  method ReadAddressing(mem: Mem, at: Word, pref: Prefs, mod: Byte, rm: Byte, p0: nat) returns (a: Addressed)
    ensures a == Addressing(mem, at, pref, mod, rm, p0)
  {
    var p := p0;
    var c := Peek(mem, at, p); // looks one byte ahead: a SIB byte, if there is one
    p := p + 1;
    var dispSize := DispSize(pref.p67, mod, rm);
    var sib, hasSib := NO_FIELDS, false;
    if mod != 3 && rm == 4 && !pref.p67 {
      hasSib := true;
      p := p + 1;
      sib := Split(c);
      if sib.low == 5 && mod % 2 == 0 {
        dispSize := 4;
      }
    }
    p := p - 1;
    var disp := Store([0, 0, 0, 0], PeekN(mem, at, p, dispSize));
    a := Addressed(sib, disp, DispForm(hasSib, dispSize), p + dispSize);
  }

  method CheckLock(t: Table, two: bool, opcode: Byte, mod: Byte, reg: Byte) returns (bad: bool)
    requires reg < 8
    ensures bad == LockBad(t, two, opcode, mod, reg)
  {
    if mod == 3 {
      return true;
    }
    var ok;
    if two {
      ok := ScanLockTable(t, DELTA_OP2_LOCK_OK, DELTA_OP_ONLY_MEM, opcode, reg);
    } else {
      ok := ScanLockTable(t, DELTA_OP_LOCK_OK, DELTA_OP2_LOCK_OK, opcode - opcode % 2, reg);
    }
    bad := !ok;
  }

  /** The validity checks, in the order of the C code. */
  method Validate(t: Table, s: State, m: Fields) returns (f: Faults)
    requires m.mid < 8 && m.low < 8
    ensures f == CheckModRm(t, s, m)
  {
    hide Shaped, LockBad, OperandBad;
    f := s.hs.faults;
    var two := s.hs.opcode2 != 0;
    if s.mask != 0 && Bit(s.mask, 7 - m.mid) {
      f := BadOpcode(f);
    }
    if !two && 0xd9 <= s.opcode <= 0xdf {
      if FpuBad(t, s.opcode, m.top, m.mid, m.low) {
        f := BadOpcode(f);
      }
    }
    if s.pref.lock {
      var bad := CheckLock(t, two, s.opcode, m.top, m.mid);
      if bad {
        f := BadLock(f);
      }
    }
    var bad := CheckOperand(t, two, s.opcode, s.pref, m.top, m.mid);
    if bad {
      f := BadOperand(f);
    }
  }

  method CheckOperand(t: Table, two: bool, opcode: Byte, pref: Prefs, mod: Byte, reg: Byte) returns (bad: bool)
    requires reg < 8
    ensures bad == OperandBad(t, two, opcode, pref, mod, reg)
  {
    bad := false;
    if two && (opcode == 0x20 || opcode == 0x22) {
      bad := reg > 4 || reg == 1;
    } else if two && (opcode == 0x21 || opcode == 0x23) {
      bad := reg == 4 || reg == 5;
    } else if !two && opcode == 0x8c {
      bad := reg > 5;
    } else if !two && opcode == 0x8e {
      bad := reg == 1 || reg > 5;
    } else if mod == 3 {
      if two {
        bad := ScanMemTable(t, DELTA_OP2_ONLY_MEM, TABLE_SIZE, opcode, pref, reg);
      } else {
        bad := ScanMemTable(t, DELTA_OP_ONLY_MEM, DELTA_OP2_ONLY_MEM, opcode, pref, reg);
      }
    } else if two {
      if opcode == 0x50 || opcode == 0xd7 || opcode == 0xf7 {
        bad := pref.none || pref.p66;
      } else if opcode == 0xd6 {
        bad := pref.f2 || pref.f3;
      } else if opcode == 0xc5 {
        bad := true;
      }
    }
  }

  method ReadModRm(t: Table, mem: Mem, at: Word, s: State) returns (r: State)
    ensures r == ModRmSection(t, mem, at, s)
  {
    hide CheckModRm, Addressing, Shaped;
    r := s;
    if s.cf.modrm {
      var m := Split(Peek(mem, at, s.p));
      var faults := Validate(t, s, m);
      var mod := ModOf(s, m);
      var cf := GroupImmediate(s.cf, s.opcode, m.mid);
      var a := ReadAddressing(mem, at, s.pref, mod, m.low, s.p + 1);
      var hs := s.hs.(modrm := m, sib := a.sib, disp := a.disp, form := a.form, faults := faults);
      r := s.(hs := hs, cf := cf, p := a.p);
    } else if s.pref.lock {
      r := s.(hs := s.hs.(faults := BadLock(s.hs.faults)));
    }
  }

  // ------------------------------------------------------------------
  // Immediates
  // ------------------------------------------------------------------

  /** What the immediates section writes: the two unions, the flags, the cursor. */
  datatype Imm = Imm(imm: Union4, disp: Union4, flags: Imms, p: nat)

  /** An immediate whose size follows the operand-size prefix. */
  function SizedImmediate(mem: Mem, at: Word, p66: bool, s: Imm): Imm {
    if p66 then
      s.(imm := Store(s.imm, PeekN(mem, at, s.p, 2)), flags := s.flags.(imm16 := true), p := s.p + 2)
    else
      s.(imm := Store(s.imm, PeekN(mem, at, s.p, 4)), flags := s.flags.(imm32 := true), p := s.p + 4)
  }

  /** A 16-bit immediate; a second one is kept in the displacement. */
  function Immediate16(mem: Mem, at: Word, s: Imm): Imm {
    var bytes := PeekN(mem, at, s.p, 2);
    if s.flags.imm32 then s.(disp := Store(s.disp, bytes), flags := s.flags.(imm16 := true), p := s.p + 2)
    else if s.flags.imm16 then s.(disp := Store(s.disp, bytes), flags := s.flags.(twoImm16 := true), p := s.p + 2)
    else s.(imm := Store(s.imm, bytes), flags := s.flags.(imm16 := true), p := s.p + 2)
  }

  function Immediate8(mem: Mem, at: Word, s: Imm): Imm {
    s.(imm := Store(s.imm, PeekN(mem, at, s.p, 1)), flags := s.flags.(imm8 := true), p := s.p + 1)
  }

  /** A relative branch target of `n` bytes. */
  function Relative(mem: Mem, at: Word, s: Imm, n: nat): Imm
    requires n == 1 || n == 2 || n == 4
  {
    var f := s.flags.(relative := true);
    var f1 := match n case 1 => f.(imm8 := true) case 2 => f.(imm16 := true) case _ => f.(imm32 := true);
    s.(imm := Store(s.imm, PeekN(mem, at, s.p, n)), flags := f1, p := s.p + n)
  }

  function Immediates(mem: Mem, at: Word, cf: Flow, p66: bool, s: Imm): Imm {
    if cf.immP66 && cf.rel32 then Relative(mem, at, s, if p66 then 2 else 4)
    else
      var s1 := if cf.immP66 then SizedImmediate(mem, at, p66, s) else s;
      var s2 := if cf.imm16 then Immediate16(mem, at, s1) else s1;
      var s3 := if cf.imm8 then Immediate8(mem, at, s2) else s2;
      if cf.rel32 then Relative(mem, at, s3, 4)
      else if cf.rel8 then Relative(mem, at, s3, 1)
      else s3
  }

  method ReadImmediates(mem: Mem, at: Word, cf: Flow, p66: bool, s: Imm) returns (r: Imm)
    ensures r == Immediates(mem, at, cf, p66, s)
  {
    r := s;
    if cf.immP66 {
      if cf.rel32 {
        if p66 {
          r := Relative(mem, at, r, 2);
          return;
        }
        r := Relative(mem, at, r, 4);
        return;
      }
      r := SizedImmediate(mem, at, p66, r);
    }
    if cf.imm16 {
      r := Immediate16(mem, at, r);
    }
    if cf.imm8 {
      r := Immediate8(mem, at, r);
    }
    if cf.rel32 {
      r := Relative(mem, at, r, 4);
    } else if cf.rel8 {
      r := Relative(mem, at, r, 1);
    }
  }

  function ImmSection(mem: Mem, at: Word, s: State): State {
    var r := Immediates(mem, at, s.cf, s.pref.p66, Imm(s.hs.imm, s.hs.disp, s.hs.imms, s.p));
    s.(hs := s.hs.(imm := r.imm, disp := r.disp, imms := r.flags), p := r.p)
  }

  // ------------------------------------------------------------------
  // The whole decoder
  // ------------------------------------------------------------------

  /** The decoder up to the opcode, up to the addressing form, up to the end. */
  function Head(t: Table, mem: Mem, at: Word): State {
    OpcodeSection(t, mem, at, ScanPrefixes(mem, at, MAX_SCAN, SCAN_START))
  }

  function Body(t: Table, mem: Mem, at: Word): State {
    ModRmSection(t, mem, at, Head(t, mem, at))
  }

  function Sections(t: Table, mem: Mem, at: Word): State {
    ImmSection(mem, at, Body(t, mem, at))
  }

  /** The length is cast to a byte before it is compared with 15. */
  function Finish(s: State): Inst {
    var len := s.p % 256;
    if len > 15 then s.hs.(len := 15, faults := s.hs.faults.(error := true, length := true))
    else s.hs.(len := len)
  }

  function Decode(t: Table, mem: Mem, at: Word): Inst {
    Finish(Sections(t, mem, at))
  }

  method ReadHead(t: Table, mem: Mem, at: Word) returns (r: State)
    ensures r == Head(t, mem, at)
  {
    var s := ReadPrefixes(mem, at);
    r := ReadOpcode(t, mem, at, s);
  }

  method ReadBody(t: Table, mem: Mem, at: Word) returns (r: State)
    ensures r == Body(t, mem, at)
  {
    r := ReadHead(t, mem, at);
    r := ReadModRm(t, mem, at, r);
  }

  method ReadSections(t: Table, mem: Mem, at: Word) returns (r: State)
    ensures r == Sections(t, mem, at)
  {
    r := ReadBody(t, mem, at);
    var i := ReadImmediates(mem, at, r.cf, r.pref.p66, Imm(r.hs.imm, r.hs.disp, r.hs.imms, r.p));
    r := r.(hs := r.hs.(imm := i.imm, disp := i.disp, imms := i.flags), p := i.p);
  }

  method StoreLength(s: State) returns (hs: Inst)
    ensures hs == Finish(s)
  {
    hs := s.hs.(len := s.p % 256);
    if hs.len > 15 {
      hs := hs.(faults := hs.faults.(error := true, length := true));
      hs := hs.(len := 15);
    }
  }

  /** `hde32_disasm`. */
  method Disasm(t: Table, mem: Mem, at: Word) returns (hs: Inst)
    ensures hs == Decode(t, mem, at)
  {
    var s := ReadSections(t, mem, at);
    hs := StoreLength(s);
  }
}
