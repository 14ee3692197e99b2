/**
  What the decoder guarantees: it is total and its lengths lie in 1..15, the
  record accounts for every byte of the length, and decoding is local: only the
  bytes of the instruction matter.
 */
module DecoderTheory {
  import opened OpcodeTable
  import opened Decoder

  // ------------------------------------------------------------------
  // The record accounts for its length
  // ------------------------------------------------------------------

  /** Leading prefix bytes, at most `x` of them. */
  function PrefixRun(mem: Mem, at: Word, i: nat, x: nat): (n: nat)
    ensures n <= x
    decreases x
  {
    if x > 0 && IsPrefix(Peek(mem, at, i)) then 1 + PrefixRun(mem, at, i + 1, x - 1) else 0
  }

  /** The prefix bytes of an instruction; a sixteenth would be its opcode. */
  function Prefixes(mem: Mem, at: Word): (n: nat)
    ensures n <= MAX_SCAN - 1
  {
    PrefixRun(mem, at, 0, MAX_SCAN - 1)
  }

  /** What the record says the addressing form and the immediates occupy. */
  function FormBytes(f: Form): nat {
    (if f.modrm then 1 else 0) + (if f.sib then 1 else 0)
    + (if f.disp8 then 1 else 0) + (if f.disp16 then 2 else 0) + (if f.disp32 then 4 else 0)
  }

  function ImmBytes(f: Imms): nat {
    (if f.imm8 then 1 else 0) + (if f.imm16 then 2 else 0) + (if f.imm32 then 4 else 0)
    + (if f.twoImm16 then 2 else 0)
  }

  lemma {:induction false} ScanCursor(mem: Mem, at: Word, x: nat, s: Scan)
    requires x > 0
    ensures var r := ScanPrefixes(mem, at, x, s);
            r.p == s.p + PrefixRun(mem, at, s.p, x - 1) + 1 && r.c == Peek(mem, at, r.p - 1)
    decreases x
  {
    var c := Peek(mem, at, s.p);
    if IsPrefix(c) && x > 1 {
      ScanCursor(mem, at, x - 1, AddPrefix(s, c));
    }
  }

  lemma {:induction false} WholeScan(mem: Mem, at: Word)
    ensures var r := ScanPrefixes(mem, at, MAX_SCAN, SCAN_START); var n := Prefixes(mem, at);
            r.p == n + 1 && r.c == Peek(mem, at, n)
  {
    ScanCursor(mem, at, MAX_SCAN, SCAN_START);
  }

  /** Only eleven combinations of operand bits come out of the table. */
  lemma EntryFlags(t: Table, base: nat, op: Byte)
    requires base == 0 || base == DELTA_OPCODES
    ensures IsFlags(EntryOf(t, base, op).flags)
  {
    var i := base + t[base + op / 4] + op % 4;
    if base == 0 {
      assert EntryOk(t, 0, t[i]);
    } else {
      assert EntryOk(t, DELTA_OPCODES, t[i]);
    }
  }

  /** Operand bits that the immediates section can account for. */
  predicate FlowOk(cf: Flow) {
    && !(cf.imm8 && cf.rel8)
    && (cf.modrm ==> !cf.imm16 && !cf.rel8 && !cf.rel32)
    && (cf.rel32 ==> cf.immP66 && !cf.imm16 && !cf.imm8)
    && (cf.imm16 && cf.imm8 ==> !cf.immP66)
  }

  lemma FlagsAreFlowOk(b: Byte)
    requires IsFlags(b)
    ensures FlowOk(FlowOf(b))
  {
  }

  /** What holds of the state after the opcode section. */
  predicate HeadOk(s: State) {
    FlowOk(s.cf) && s.hs.form == NO_FORM && s.hs.imms == NO_IMMS && !s.hs.faults.length
  }

  lemma OpcodeCursor(t: Table, mem: Mem, at: Word, sc: Scan)
    ensures var s := OpcodeSection(t, mem, at, sc);
            HeadOk(s) && s.p == sc.p + (if sc.c == 0x0f then 1 else 0) && s.hs.opcode == sc.c
  {
    var two := sc.c == 0x0f;
    var c := if two then Peek(mem, at, sc.p) else sc.c;
    var base := if two then DELTA_OPCODES else 0;
    EntryFlags(t, base, c);
    FlagsAreFlowOk(EntryOf(t, base, c).flags);
  }

  lemma AddressingCursor(mem: Mem, at: Word, pref: Prefs, mod: Byte, rm: Byte, p: nat)
    ensures var a := Addressing(mem, at, pref, mod, rm, p);
            a.p == p + FormBytes(a.form) - 1 && FormBytes(a.form) <= 6
  {
  }

  /** What the immediates section starts from. */
  predicate BodyOk(s: State) {
    && FlowOk(s.cf.(modrm := false)) && !(s.cf.modrm && (s.cf.imm16 || s.cf.rel32))
    && s.hs.imms == NO_IMMS && !s.hs.faults.length
  }

  lemma AddresseeCursor(t: Table, h: State, m: Fields, a: Addressed)
    requires HeadOk(h) && h.cf.modrm && m.mid < 8 && m.low < 8
    ensures var s := Addressee(t, h, m, a);
            BodyOk(s) && s.p == a.p && s.hs.form == a.form && s.hs.opcode == h.hs.opcode
  {
  }

  lemma ModRmCursor(t: Table, mem: Mem, at: Word, h: State)
    requires HeadOk(h)
    ensures var s := ModRmSection(t, mem, at, h);
            && BodyOk(s) && s.p == h.p + FormBytes(s.hs.form) && FormBytes(s.hs.form) <= 6
            && s.hs.opcode == h.hs.opcode
  {
    if h.cf.modrm {
      var m := Split(Peek(mem, at, h.p));
      AddressingCursor(mem, at, h.pref, ModOf(h, m), m.low, h.p + 1);
      AddresseeCursor(t, h, m, Addressing(mem, at, h.pref, ModOf(h, m), m.low, h.p + 1));
    }
  }

  lemma ImmCursor(mem: Mem, at: Word, cf: Flow, p66: bool, s: Imm)
    requires FlowOk(cf.(modrm := false)) && s.flags == NO_IMMS
    ensures var r := Immediates(mem, at, cf, p66, s);
            r.p == s.p + ImmBytes(r.flags) && ImmBytes(r.flags) <= 7
  {
  }

  lemma HeadCursor(t: Table, mem: Mem, at: Word)
    ensures var s := Head(t, mem, at);
            && HeadOk(s) && s.p == Prefixes(mem, at) + (if s.hs.opcode == 0x0f then 2 else 1)
            && s.hs.opcode == Peek(mem, at, Prefixes(mem, at))
  {
    WholeScan(mem, at);
    OpcodeCursor(t, mem, at, ScanPrefixes(mem, at, MAX_SCAN, SCAN_START));
  }

  lemma BodyCursor(t: Table, mem: Mem, at: Word)
    ensures var h := Head(t, mem, at); var s := Body(t, mem, at);
            && BodyOk(s) && s.p == h.p + FormBytes(s.hs.form) && FormBytes(s.hs.form) <= 6
            && s.hs.opcode == h.hs.opcode
  {
    HeadCursor(t, mem, at);
    ModRmCursor(t, mem, at, Head(t, mem, at));
  }

  lemma SectionsCursor(t: Table, mem: Mem, at: Word)
    ensures var b := Body(t, mem, at); var s := Sections(t, mem, at);
            && s.p == b.p + ImmBytes(s.hs.imms) && ImmBytes(s.hs.imms) <= 7
            && s.hs.opcode == b.hs.opcode && s.hs.form == b.hs.form && !s.hs.faults.length
  {
    BodyCursor(t, mem, at);
    var b := Body(t, mem, at);
    ImmCursor(mem, at, b.cf, b.pref.p66, Imm(b.hs.imm, b.hs.disp, b.hs.imms, b.p));
  }

  /** Where the cursor stands when decoding ends. */
  lemma CursorAccounts(t: Table, mem: Mem, at: Word)
    ensures var s := Sections(t, mem, at);
            && s.p == Prefixes(mem, at) + (if s.hs.opcode == 0x0f then 2 else 1)
                      + FormBytes(s.hs.form) + ImmBytes(s.hs.imms)
            && 1 <= s.p <= 30
            && s.hs.opcode == Peek(mem, at, Prefixes(mem, at)) && !s.hs.faults.length
  {
    HeadCursor(t, mem, at);
    BodyCursor(t, mem, at);
    SectionsCursor(t, mem, at);
  }

  lemma FinishLength(s: State)
    requires 1 <= s.p <= 30 && !s.hs.faults.length
    ensures var i := Finish(s);
            && 1 <= i.len <= 15
            && (i.faults.length <==> s.p > 15)
            && (!i.faults.length ==> i == s.hs.(len := s.p))
            && i.form == s.hs.form && i.imms == s.hs.imms && i.opcode == s.hs.opcode
  {
  }

  /** The decoder is total, every length lies in 1..15, the cast to a byte loses
      nothing, and unless the length was cut it is exactly the sum of the parts
      the record describes. */
  lemma LengthIsAccounted(t: Table, mem: Mem, at: Word)
    ensures var i := Decode(t, mem, at);
            && 1 <= i.len <= 15
            && (i.faults.length <==> Sections(t, mem, at).p > 15)
            && (!i.faults.length ==>
                  && i == Sections(t, mem, at).hs.(len := Sections(t, mem, at).p)
                  && i.len == Prefixes(mem, at) + (if i.opcode == 0x0f then 2 else 1)
                              + FormBytes(i.form) + ImmBytes(i.imms)
                  && i.opcode == Peek(mem, at, Prefixes(mem, at)))
  {
    CursorAccounts(t, mem, at);
    FinishLength(Sections(t, mem, at));
  }

  // ------------------------------------------------------------------
  // Locality
  // ------------------------------------------------------------------

  /** The first `n` bytes at two places agree. */
  ghost predicate Same(m1: Mem, a1: Word, m2: Mem, a2: Word, n: nat) {
    forall i: nat | i < n :: Peek(m1, a1, i) == Peek(m2, a2, i)
  }

  lemma SamePeekN(m1: Mem, a1: Word, m2: Mem, a2: Word, n: nat, p: nat, k: nat)
    requires Same(m1, a1, m2, a2, n) && p + k <= n
    ensures PeekN(m1, a1, p, k) == PeekN(m2, a2, p, k)
  {
  }

  lemma {:induction false} ScanLocal(m1: Mem, a1: Word, m2: Mem, a2: Word, x: nat, s: Scan)
    requires Same(m1, a1, m2, a2, ScanPrefixes(m1, a1, x, s).p)
    ensures ScanPrefixes(m1, a1, x, s) == ScanPrefixes(m2, a2, x, s)
    ensures ScanPrefixes(m1, a1, x, s).p >= s.p
    decreases x
  {
    if x > 0 {
      ScanCursor(m1, a1, x, s);
      assert Peek(m1, a1, s.p) == Peek(m2, a2, s.p);
      var c := Peek(m1, a1, s.p);
      if IsPrefix(c) {
        ScanLocal(m1, a1, m2, a2, x - 1, AddPrefix(s, c));
      }
    }
  }

  lemma OpcodeLocal(t: Table, m1: Mem, a1: Word, m2: Mem, a2: Word, sc: Scan)
    requires Same(m1, a1, m2, a2, OpcodeSection(t, m1, a1, sc).p)
    ensures OpcodeSection(t, m1, a1, sc) == OpcodeSection(t, m2, a2, sc)
    ensures OpcodeSection(t, m1, a1, sc).p >= sc.p
  {
  }

  lemma AddressingLocal(m1: Mem, a1: Word, m2: Mem, a2: Word, pref: Prefs, mod: Byte, rm: Byte, p: nat)
    requires Same(m1, a1, m2, a2, Addressing(m1, a1, pref, mod, rm, p).p)
    ensures Addressing(m1, a1, pref, mod, rm, p) == Addressing(m2, a2, pref, mod, rm, p)
    ensures Addressing(m1, a1, pref, mod, rm, p).p >= p
  {
    var a := Addressing(m1, a1, pref, mod, rm, p);
    var sib := HasSib(pref, mod, rm);
    if sib {
      assert Peek(m1, a1, p) == Peek(m2, a2, p);
    }
    var p1 := if sib then p + 1 else p;
    SamePeekN(m1, a1, m2, a2, a.p, p1, a.p - p1);
  }

  lemma ModRmLocal(t: Table, m1: Mem, a1: Word, m2: Mem, a2: Word, h: State)
    requires Same(m1, a1, m2, a2, ModRmSection(t, m1, a1, h).p)
    ensures ModRmSection(t, m1, a1, h) == ModRmSection(t, m2, a2, h)
    ensures ModRmSection(t, m1, a1, h).p >= h.p
  {
    hide CheckModRm, Addressing;
    if h.cf.modrm {
      var m := Split(Peek(m1, a1, h.p));
      var a := Addressing(m1, a1, h.pref, ModOf(h, m), m.low, h.p + 1);
      assert ModRmSection(t, m1, a1, h) == Addressee(t, h, m, a);
      AddressingLocal(m1, a1, m2, a2, h.pref, ModOf(h, m), m.low, h.p + 1);
      assert Peek(m1, a1, h.p) == Peek(m2, a2, h.p);
      assert ModRmSection(t, m2, a2, h) == Addressee(t, h, m, a);
    }
  }

  lemma SizedLocal(m1: Mem, a1: Word, m2: Mem, a2: Word, p66: bool, s: Imm)
    requires Same(m1, a1, m2, a2, s.p + (if p66 then 2 else 4))
    ensures SizedImmediate(m1, a1, p66, s) == SizedImmediate(m2, a2, p66, s)
  {
    SamePeekN(m1, a1, m2, a2, s.p + (if p66 then 2 else 4), s.p, if p66 then 2 else 4);
  }

  lemma Imm16Local(m1: Mem, a1: Word, m2: Mem, a2: Word, s: Imm)
    requires Same(m1, a1, m2, a2, s.p + 2)
    ensures Immediate16(m1, a1, s) == Immediate16(m2, a2, s)
  {
    SamePeekN(m1, a1, m2, a2, s.p + 2, s.p, 2);
  }

  lemma Imm8Local(m1: Mem, a1: Word, m2: Mem, a2: Word, s: Imm)
    requires Same(m1, a1, m2, a2, s.p + 1)
    ensures Immediate8(m1, a1, s) == Immediate8(m2, a2, s)
  {
    SamePeekN(m1, a1, m2, a2, s.p + 1, s.p, 1);
  }

  lemma RelativeLocal(m1: Mem, a1: Word, m2: Mem, a2: Word, s: Imm, n: nat)
    requires n == 1 || n == 2 || n == 4
    requires Same(m1, a1, m2, a2, s.p + n)
    ensures Relative(m1, a1, s, n) == Relative(m2, a2, s, n)
  {
    SamePeekN(m1, a1, m2, a2, s.p + n, s.p, n);
  }

  /** The cursor after the operand-size, 16-bit and 8-bit immediates. */
  lemma ImmediatesLocal(m1: Mem, a1: Word, m2: Mem, a2: Word, cf: Flow, p66: bool, s: Imm)
    requires Same(m1, a1, m2, a2, Immediates(m1, a1, cf, p66, s).p)
    ensures Immediates(m1, a1, cf, p66, s) == Immediates(m2, a2, cf, p66, s)
    ensures Immediates(m1, a1, cf, p66, s).p >= s.p
  {
    if cf.immP66 && cf.rel32 {
      RelativeLocal(m1, a1, m2, a2, s, if p66 then 2 else 4);
    } else {
      var s1 := if cf.immP66 then SizedImmediate(m1, a1, p66, s) else s;
      var s2 := if cf.imm16 then Immediate16(m1, a1, s1) else s1;
      var s3 := if cf.imm8 then Immediate8(m1, a1, s2) else s2;
      if cf.immP66 { SizedLocal(m1, a1, m2, a2, p66, s); }
      if cf.imm16 { Imm16Local(m1, a1, m2, a2, s1); }
      if cf.imm8 { Imm8Local(m1, a1, m2, a2, s2); }
      if cf.rel32 { RelativeLocal(m1, a1, m2, a2, s3, 4); }
      else if cf.rel8 { RelativeLocal(m1, a1, m2, a2, s3, 1); }
    }
  }

  lemma ImmLocal(m1: Mem, a1: Word, m2: Mem, a2: Word, b: State)
    requires Same(m1, a1, m2, a2, ImmSection(m1, a1, b).p)
    ensures ImmSection(m1, a1, b) == ImmSection(m2, a2, b)
    ensures ImmSection(m1, a1, b).p >= b.p
  {
    ImmediatesLocal(m1, a1, m2, a2, b.cf, b.pref.p66, Imm(b.hs.imm, b.hs.disp, b.hs.imms, b.p));
  }

  /** The cursor never moves back. */
  lemma {:induction false} CursorGrows(t: Table, mem: Mem, at: Word)
    ensures ScanPrefixes(mem, at, MAX_SCAN, SCAN_START).p <= Head(t, mem, at).p
            <= Body(t, mem, at).p <= Sections(t, mem, at).p
  {
    OpcodeLocal(t, mem, at, mem, at, ScanPrefixes(mem, at, MAX_SCAN, SCAN_START));
    ModRmLocal(t, mem, at, mem, at, Head(t, mem, at));
    ImmLocal(mem, at, mem, at, Body(t, mem, at));
  }

  lemma HeadLocal(t: Table, m1: Mem, a1: Word, m2: Mem, a2: Word)
    requires Same(m1, a1, m2, a2, Head(t, m1, a1).p)
    ensures Head(t, m1, a1) == Head(t, m2, a2)
  {
    CursorGrows(t, m1, a1);
    ScanLocal(m1, a1, m2, a2, MAX_SCAN, SCAN_START);
    OpcodeLocal(t, m1, a1, m2, a2, ScanPrefixes(m1, a1, MAX_SCAN, SCAN_START));
  }

  lemma SectionsLocal(t: Table, m1: Mem, a1: Word, m2: Mem, a2: Word)
    requires Same(m1, a1, m2, a2, Sections(t, m1, a1).p)
    ensures Sections(t, m1, a1) == Sections(t, m2, a2)
  {
    CursorGrows(t, m1, a1);
    HeadLocal(t, m1, a1, m2, a2);
    ModRmLocal(t, m1, a1, m2, a2, Head(t, m1, a1));
    ImmLocal(m1, a1, m2, a2, Body(t, m1, a1));
  }

  /** Decoding is local: only the bytes of the instruction matter, although the
      decoder looks one byte past ModRM.  So the lengths form a prefix code. */
  lemma DecodeIsLocal(t: Table, m1: Mem, a1: Word, m2: Mem, a2: Word)
    requires !Decode(t, m1, a1).faults.length
    requires Same(m1, a1, m2, a2, Decode(t, m1, a1).len)
    ensures Decode(t, m2, a2) == Decode(t, m1, a1)
  {
    LengthIsAccounted(t, m1, a1);
    SectionsLocal(t, m1, a1, m2, a2);
  }

  /** No instruction is a proper prefix of another. */
  lemma NoProperPrefix(t: Table, m1: Mem, a1: Word, m2: Mem, a2: Word)
    requires !Decode(t, m1, a1).faults.length && !Decode(t, m2, a2).faults.length
    requires Same(m1, a1, m2, a2, Decode(t, m1, a1).len) || Same(m1, a1, m2, a2, Decode(t, m2, a2).len)
    ensures Decode(t, m1, a1) == Decode(t, m2, a2)
  {
    hide Decode;
    if Same(m1, a1, m2, a2, Decode(t, m1, a1).len) {
      DecodeIsLocal(t, m1, a1, m2, a2);
    } else {
      DecodeIsLocal(t, m2, a2, m1, a1);
    }
  }
}
