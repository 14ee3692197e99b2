/**
  What the decoder's record says, read against the bytes: prefixes, opcode, address
  form, immediates and faults, in terms of byte values and table cells.

  The statements are about records whose length was not cut to 15, and hold for
  every table of the right shape.
 */
module RecordMeaning {
  import opened OpcodeTable
  import opened Decoder
  import opened DecoderTheory

  // ------------------------------------------------------------------
  // Prefix bytes
  // ------------------------------------------------------------------

  predicate SegmentByte(b: Byte) { b in {0x26, 0x2e, 0x36, 0x3e, 0x64, 0x65} }

  predicate PrefixByte(b: Byte) { SegmentByte(b) || b in {0xf2, 0xf3, 0xf0, 0x66, 0x67} }

  /** `b` is among the first `n` bytes. */
  predicate Among(mem: Mem, at: Word, n: nat, b: Byte) {
    exists k: nat | k < n :: Peek(mem, at, k) == b
  }

  predicate AnySegment(mem: Mem, at: Word, n: nat) {
    exists k: nat | k < n :: SegmentByte(Peek(mem, at, k))
  }

  /** The last of the first `n` bytes that is a repeat prefix, or 0. */
  function LastRepeat(mem: Mem, at: Word, n: nat): Byte {
    if n == 0 then 0
    else if Peek(mem, at, n - 1) == 0xf2 || Peek(mem, at, n - 1) == 0xf3 then Peek(mem, at, n - 1)
    else LastRepeat(mem, at, n - 1)
  }

  function LastSegment(mem: Mem, at: Word, n: nat): Byte {
    if n == 0 then 0
    else if SegmentByte(Peek(mem, at, n - 1)) then Peek(mem, at, n - 1)
    else LastSegment(mem, at, n - 1)
  }

  /** What a record says about the first `n` bytes, all of them prefixes. */
  predicate RecordsPrefixes(pre: PrefixBytes, q: Prefs, mem: Mem, at: Word, n: nat) {
    && (forall k: nat | k < n :: PrefixByte(Peek(mem, at, k)))
    && !q.none && (q.f2 <==> Among(mem, at, n, 0xf2)) && (q.f3 <==> Among(mem, at, n, 0xf3))
    && (q.p66 <==> Among(mem, at, n, 0x66)) && (q.p67 <==> Among(mem, at, n, 0x67))
    && (q.lock <==> Among(mem, at, n, 0xf0)) && (q.seg <==> AnySegment(mem, at, n))
    && pre.rep == LastRepeat(mem, at, n) && pre.seg == LastSegment(mem, at, n)
    && pre.lock == (if q.lock then 0xf0 else 0) && pre.p66 == (if q.p66 then 0x66 else 0)
    && pre.p67 == (if q.p67 then 0x67 else 0)
  }

  lemma AmongStep(mem: Mem, at: Word, n: nat, b: Byte)
    ensures Among(mem, at, n + 1, b) <==> Among(mem, at, n, b) || Peek(mem, at, n) == b
  {
  }

  lemma SegmentStep(mem: Mem, at: Word, n: nat)
    ensures AnySegment(mem, at, n + 1) <==> AnySegment(mem, at, n) || SegmentByte(Peek(mem, at, n))
  {
  }

  lemma OneMorePrefix(mem: Mem, at: Word, s: Scan)
    requires RecordsPrefixes(s.pre, s.pref, mem, at, s.p) && IsPrefix(Peek(mem, at, s.p))
    ensures var r := AddPrefix(s, Peek(mem, at, s.p));
            r.p == s.p + 1 && RecordsPrefixes(r.pre, r.pref, mem, at, r.p)
  {
    hide Among, AnySegment, Peek;
    AmongStep(mem, at, s.p, 0xf2);
    AmongStep(mem, at, s.p, 0xf3);
    AmongStep(mem, at, s.p, 0x66);
    AmongStep(mem, at, s.p, 0x67);
    AmongStep(mem, at, s.p, 0xf0);
    SegmentStep(mem, at, s.p);
  }

  /** The scan up to the first byte that is no prefix. */
  lemma {:induction false} ScanMeans(mem: Mem, at: Word, x: nat, s: Scan)
    requires RecordsPrefixes(s.pre, s.pref, mem, at, s.p) && PrefixRun(mem, at, s.p, x) < x
    ensures var r := ScanPrefixes(mem, at, x, s);
            && r.p > 0 && RecordsPrefixes(r.pre, r.pref, mem, at, r.p - 1)
            && r.c == Peek(mem, at, r.p - 1) && !PrefixByte(r.c)
    decreases x
  {
    hide RecordsPrefixes, AddPrefix;
    var c := Peek(mem, at, s.p);
    if IsPrefix(c) {
      OneMorePrefix(mem, at, s);
      ScanMeans(mem, at, x - 1, AddPrefix(s, c));
    }
  }

  lemma {:induction false} RunGrows(mem: Mem, at: Word, i: nat, x: nat)
    ensures PrefixRun(mem, at, i, x) < x ==> PrefixRun(mem, at, i, x + 1) == PrefixRun(mem, at, i, x)
    decreases x
  {
    if x > 0 && IsPrefix(Peek(mem, at, i)) {
      RunGrows(mem, at, i + 1, x - 1);
    }
  }

  /** Of an instruction that is not cut the scan saw the end of the prefixes. */
  lemma {:induction false} UncutScan(t: Table, mem: Mem, at: Word)
    requires !Decode(t, mem, at).faults.length
    ensures var r := ScanPrefixes(mem, at, MAX_SCAN, SCAN_START); var n := Prefixes(mem, at);
            && n <= 14 && r.p == n + 1 && r.c == Peek(mem, at, n) && !PrefixByte(r.c)
            && RecordsPrefixes(r.pre, r.pref, mem, at, n)
  {
    hide Decode, RecordsPrefixes, ScanPrefixes;
    LengthIsAccounted(t, mem, at);
    WholeScan(mem, at);
    RunGrows(mem, at, 0, MAX_SCAN - 1);
    NothingRecorded(mem, at);
    ScanMeans(mem, at, MAX_SCAN, SCAN_START);
  }

  lemma NothingRecorded(mem: Mem, at: Word)
    ensures RecordsPrefixes(SCAN_START.pre, SCAN_START.pref, mem, at, 0)
  {
  }

  // ------------------------------------------------------------------
  // Table cells
  // ------------------------------------------------------------------

  function Cell(t: Table, i: nat): Byte {
    if i < 516 then t[i] else 0
  }

  /** Two steps through the table, from the index at `base`. */
  function TwoSteps(t: Table, base: nat, op: Byte): Byte {
    Cell(t, base + Cell(t, base + op / 4) + op % 4)
  }

  /** The operand byte of an opcode: a byte with the top bit is a group, whose row
      holds the operand byte and a register mask; 0xff is no opcode. */
  function OperandByte(t: Table, base: nat, op: Byte): Byte {
    var raw := TwoSteps(t, base, op);
    if raw == 0xff then (if op == 0x24 || op == 0x26 then 1 else 0)
    else if raw >= 0x80 then Cell(t, base + (raw - 0x80)) else raw
  }

  function RegisterMask(t: Table, base: nat, op: Byte): Byte {
    var raw := TwoSteps(t, base, op);
    if 0x80 <= raw < 0xff then Cell(t, base + (raw - 0x80) + 1) else 0
  }

  /** Where the index of one-byte and of two-byte opcodes starts. */
  function IndexOf(two: bool): nat { if two then 74 else 0 }

  predicate BitOf(b: Byte, value: nat)
    requires value > 0
  {
    b / value % 2 == 1
  }

  /** `(b << k) & 0x80` is zero. */
  predicate ShiftedClear(b: Byte, k: nat)
    requires k < 8
  {
    b * [1, 2, 4, 8, 16, 32, 64, 128][k] % 256 < 128
  }

  lemma Scaled(q: nat, r: nat, m: nat, d: nat)
    requires r < d && m > 0 && m * d == 128
    ensures (q * d + r) * m == q * 128 + r * m && 0 <= r * m < 128
  {
    assert (q * d + r) * m == (q * d) * m + r * m;
    assert (q * d) * m == q * (m * d);
    assert (d - 1 - r) * m >= 0;
    assert (d - 1 - r) * m == d * m - m - r * m;
  }

  lemma TopBit(x: nat, q: nat, s: nat)
    requires x == q * 128 + s && s < 128
    ensures x % 256 < 128 <==> q % 2 == 0
  {
    var h := q / 2;
    assert x == 256 * h + (q % 2 * 128 + s);
  }

  /** Multiplying by `m` and dividing by `d` look at the same bit when m * d is 128. */
  lemma SameBit(b: Byte, m: nat, d: nat)
    requires m > 0 && d > 0 && m * d == 128
    ensures b * m % 256 < 128 <==> b / d % 2 == 0
  {
    var q, r := b / d, b % d;
    assert b == q * d + r;
    Scaled(q, r, m, d);
    TopBit(b * m, q, r * m);
  }

  lemma ShiftMeans(b: Byte, k: nat)
    requires k < 8
    ensures ShiftedClear(b, k) <==> !Bit(b, 7 - k)
  {
    SameBit(b, [1, 2, 4, 8, 16, 32, 64, 128][k], Pow2(7 - k));
  }

  /** The prefixes a mask names are among those present; bit 0 stands for none. */
  predicate MaskMeets(mask: Byte, q: Prefs) {
    || (BitOf(mask, 1) && q.none) || (BitOf(mask, 2) && q.f2) || (BitOf(mask, 4) && q.f3)
    || (BitOf(mask, 8) && q.p66) || (BitOf(mask, 16) && q.p67) || (BitOf(mask, 32) && q.lock)
    || (BitOf(mask, 64) && q.seg)
  }

  lemma MaskMeans(mask: Byte, q: Prefs)
    ensures Meets(mask, q) <==> MaskMeets(mask, q)
  {
  }

  lemma EntryMeans(t: Table, two: bool, op: Byte)
    ensures var e := EntryOf(t, if two then DELTA_OPCODES else 0, op);
            && (e.bad <==> TwoSteps(t, IndexOf(two), op) == 0xff)
            && e.flags == OperandByte(t, IndexOf(two), op) && e.mask == RegisterMask(t, IndexOf(two), op)
  {
    var base := if two then DELTA_OPCODES else 0;
    assert t[base + op / 4] <= 0xd6;
    assert TwoSteps(t, IndexOf(two), op) == Lookup(t, base, op);
  }

  lemma PrefixCellMeans(t: Table, op: Byte)
    ensures Lookup(t, DELTA_PREFIXES, op) == TwoSteps(t, 304, op)
  {
    assert t[DELTA_PREFIXES + op / 4] <= 0x6d;
  }

  // ------------------------------------------------------------------
  // The opcode section
  // ------------------------------------------------------------------

  /** The prefixes in force: none marks their absence, and for 0xa0 to 0xa3 the
      address size stands in for the operand size. */
  function InForce(q: Prefs, first: Byte): Prefs {
    var bare := !(q.f2 || q.f3 || q.p66 || q.p67 || q.lock || q.seg);
    Prefs(bare, q.f2, q.f3, if 0xa0 <= first <= 0xa3 then q.p67 else q.p66, q.p67, q.lock, q.seg)
  }

  predicate Untouched(i: Inst) {
    i.modrm == Fields(0, 0, 0, 0) && i.sib == Fields(0, 0, 0, 0) && i.imm == [0, 0, 0, 0] && i.disp == [0, 0, 0, 0]
    && i.form == Form(false, false, false, false, false) && i.imms == Imms(false, false, false, false, false)
  }

  lemma OpcodeMeans(t: Table, mem: Mem, at: Word, r: Scan)
    requires !r.pref.none
    ensures var h := OpcodeSection(t, mem, at, r);
            var two := r.c == 0x0f;
            && h.hs.pre == r.pre && h.hs.prefixes == r.pref && h.hs.opcode == r.c
            && h.hs.opcode2 == (if two then Peek(mem, at, r.p) else 0)
            && h.opcode == (if two then Peek(mem, at, r.p) else r.c)
            && h.p == (if two then r.p + 1 else r.p) && h.pref == InForce(r.pref, r.c)
            && h.cf == FlowOf(OperandByte(t, IndexOf(two), h.opcode))
            && h.mask == RegisterMask(t, IndexOf(two), h.opcode) && Untouched(h.hs)
            && !h.hs.faults.length && !h.hs.faults.lock && !h.hs.faults.operand
            && (h.hs.faults.error <==> h.hs.faults.opcode)
            && (h.hs.faults.opcode <==>
                TwoSteps(t, IndexOf(two), h.opcode) == 0xff
                || (h.hs.opcode2 != 0 && MaskMeets(TwoSteps(t, 304, h.opcode), h.pref)))
  {
    hide Shaped, EntryOf, Lookup, Meets, MaskMeets, TwoSteps, OperandByte, RegisterMask, FlowOf, IndexOf;
    var two := r.c == 0x0f;
    var c := if two then Peek(mem, at, r.p) else r.c;
    EntryMeans(t, two, c);
    PrefixCellMeans(t, c);
    MaskMeans(TwoSteps(t, 304, c), InForce(r.pref, r.c));
  }

  // ------------------------------------------------------------------
  // The address form
  // ------------------------------------------------------------------

  /** The `mod` an instruction goes by: moves to and from control and debug registers
      have register operands whatever it says. */
  function Mode(i: Inst): Byte {
    if i.opcode2 in {0x20, 0x21, 0x22, 0x23} then 3 else i.modrm.top
  }

  /** Which of the form bits a ModRM byte, a SIB byte and the address size set. */
  predicate FormMeans(i: Inst, p67: bool) {
    && i.form.modrm
    && (!p67 ==>
          && (i.form.sib <==> Mode(i) != 3 && i.modrm.low == 4)
          && (i.form.disp8 <==> Mode(i) == 1)
          && !i.form.disp16
          && (i.form.disp32 <==>
                || Mode(i) == 2
                || (Mode(i) == 0 && (i.modrm.low == 5 || (i.modrm.low == 4 && i.sib.low == 5)))))
    && (p67 ==>
          && !i.form.sib && !i.form.disp32
          && (i.form.disp8 <==> Mode(i) == 1)
          && (i.form.disp16 <==> Mode(i) == 2 || (Mode(i) == 0 && i.modrm.low == 6)))
  }

  /** A byte and its parts of two, three and three bits. */
  predicate PartsOf(f: Fields, b: Byte) {
    f.whole == b && f.top == b / 64 && f.mid == b / 8 % 8 && f.low == b % 8
  }

  /** `n` bytes from offset `k` in the low end of a union that was empty. */
  predicate Holds4(u: Union4, mem: Mem, at: Word, k: nat, n: nat) {
    forall j | 0 <= j < 4 :: u[j] == if j < n then Peek(mem, at, k + j) else 0
  }

  function DispBytes(f: Form): nat {
    (if f.disp8 then 1 else 0) + (if f.disp16 then 2 else 0) + (if f.disp32 then 4 else 0)
  }

  lemma SplitParts(b: Byte)
    ensures PartsOf(Split(b), b)
  {
  }

  lemma AddressingMeans(mem: Mem, at: Word, q: Prefs, mod: Byte, low: Byte, p: nat)
    requires mod < 4 && low < 8
    ensures var a := Addressing(mem, at, q, mod, low, p);
            && a.form.modrm
            && (a.form.sib <==> !q.p67 && mod != 3 && low == 4)
            && (if a.form.sib then PartsOf(a.sib, Peek(mem, at, p)) else a.sib == Fields(0, 0, 0, 0))
            && (a.form.disp8 <==> mod == 1)
            && (a.form.disp16 <==> q.p67 && (mod == 2 || (mod == 0 && low == 6)))
            && (a.form.disp32 <==>
                !q.p67 && (mod == 2 || (mod == 0 && (low == 5 || (low == 4 && a.sib.low == 5)))))
            && Holds4(a.disp, mem, at, p + (if a.form.sib then 1 else 0), DispBytes(a.form))
            && a.p == p + (if a.form.sib then 1 else 0) + DispBytes(a.form)
  {
    SplitParts(Peek(mem, at, p));
  }

  // ------------------------------------------------------------------
  // Faults of the ModRM section
  // ------------------------------------------------------------------

  /** The first of `n` pairs from `lo` on that starts with `op`. */
  predicate FirstPair(t: Table, lo: nat, n: nat, op: Byte, r: nat)
    requires lo + 2 * n <= 516
  {
    r < n && t[lo + 2 * r] == op && forall q: nat | q < r :: t[lo + 2 * q] != op
  }

  predicate FirstTriple(t: Table, lo: nat, n: nat, op: Byte, r: nat)
    requires lo + 3 * n <= 516
  {
    r < n && t[lo + 3 * r] == op && forall q: nat | q < r :: t[lo + 3 * q] != op
  }

  predicate Allows(t: Table, row: nat, reg: Byte)
    requires row + 2 <= 516 && reg < 8
  {
    ShiftedClear(t[row + 1], reg)
  }

  /** The section has a pair for `op`, and the first allows the register. */
  predicate PairAllows(t: Table, lo: nat, n: nat, op: Byte, reg: Byte)
    requires lo + 2 * n <= 516 && reg < 8
  {
    exists r: nat | r < n :: FirstPair(t, lo, n, op, r) && Allows(t, lo + 2 * r, reg)
  }

  predicate Forbids(t: Table, row: nat, q: Prefs, reg: Byte)
    requires row + 3 <= 516 && reg < 8
  {
    MaskMeets(t[row + 1], q) && ShiftedClear(t[row + 2], reg)
  }

  /** The section has a triple for `op`, and the first forbids the register under
      these prefixes. */
  predicate TripleForbids(t: Table, lo: nat, n: nat, op: Byte, q: Prefs, reg: Byte)
    requires lo + 3 * n <= 516 && reg < 8
  {
    exists r: nat | r < n ::
      FirstTriple(t, lo, n, op, r) && Forbids(t, lo + 3 * r, q, reg)
  }

  lemma FirstPairHead(t: Table, lo: nat, n: nat, op: Byte, r: nat)
    requires 0 < n && lo + 2 * n <= 516
    ensures t[lo] == op ==> (FirstPair(t, lo, n, op, r) <==> r == 0)
    ensures t[lo] != op ==> !FirstPair(t, lo, n, op, 0)
  {
    if r > 0 && FirstPair(t, lo, n, op, r) { assert t[lo + 2 * 0] != op; }
  }

  lemma FirstPairTail(t: Table, lo: nat, n: nat, op: Byte, r: nat)
    requires 0 < n && lo + 2 * n <= 516 && t[lo] != op
    ensures FirstPair(t, lo, n, op, r + 1) <==> FirstPair(t, lo + 2, n - 1, op, r)
  {
    if FirstPair(t, lo, n, op, r + 1) {
      forall q: nat | q < r ensures t[lo + 2 + 2 * q] != op { assert t[lo + 2 * (q + 1)] != op; }
    }
    if FirstPair(t, lo + 2, n - 1, op, r) {
      forall q: nat | q < r + 1 ensures t[lo + 2 * q] != op {
        if q > 0 { assert t[lo + 2 + 2 * (q - 1)] != op; }
      }
    }
  }

  lemma PairStep(t: Table, lo: nat, n: nat, op: Byte, reg: Byte)
    requires n > 0 && lo + 2 * n <= 516 && reg < 8
    ensures PairAllows(t, lo, n, op, reg) <==>
            if t[lo] == op then Allows(t, lo, reg) else PairAllows(t, lo + 2, n - 1, op, reg)
  {
    assert |t| == 516;
    hide Shaped, Allows, FirstPair;
    FirstPairHead(t, lo, n, op, 0);
    if PairAllows(t, lo, n, op, reg) {
      var r: nat :| r < n && FirstPair(t, lo, n, op, r) && Allows(t, lo + 2 * r, reg);
      FirstPairHead(t, lo, n, op, r);
      if t[lo] != op {
        FirstPairTail(t, lo, n, op, r - 1);
        assert lo + 2 + 2 * (r - 1) == lo + 2 * r;
      }
    }
    if t[lo] != op && PairAllows(t, lo + 2, n - 1, op, reg) {
      var r: nat :| r < n - 1 && FirstPair(t, lo + 2, n - 1, op, r) && Allows(t, lo + 2 + 2 * r, reg);
      FirstPairTail(t, lo, n, op, r);
      assert lo + 2 + 2 * r == lo + 2 * (r + 1);
    }
  }

  lemma {:induction false} LockMeans(t: Table, lo: nat, n: nat, op: Byte, reg: Byte)
    requires lo + 2 * n <= 516 && reg < 8
    ensures LockAllowed(t, lo, lo + 2 * n, op, reg) <==> PairAllows(t, lo, n, op, reg)
    decreases n
  {
    assert |t| == 516;
    hide Shaped, ShiftedClear, Bit;
    if n > 0 {
      PairStep(t, lo, n, op, reg);
      ShiftMeans(t[lo + 1], reg);
      LockMeans(t, lo + 2, n - 1, op, reg);
    }
  }

  lemma FirstTripleHead(t: Table, lo: nat, n: nat, op: Byte, r: nat)
    requires 0 < n && lo + 3 * n <= 516
    ensures t[lo] == op ==> (FirstTriple(t, lo, n, op, r) <==> r == 0)
    ensures t[lo] != op ==> !FirstTriple(t, lo, n, op, 0)
  {
    if r > 0 && FirstTriple(t, lo, n, op, r) { assert t[lo + 3 * 0] != op; }
  }

  lemma FirstTripleTail(t: Table, lo: nat, n: nat, op: Byte, r: nat)
    requires 0 < n && lo + 3 * n <= 516 && t[lo] != op
    ensures FirstTriple(t, lo, n, op, r + 1) <==> FirstTriple(t, lo + 3, n - 1, op, r)
  {
    if FirstTriple(t, lo, n, op, r + 1) {
      forall q: nat | q < r ensures t[lo + 3 + 3 * q] != op { assert t[lo + 3 * (q + 1)] != op; }
    }
    if FirstTriple(t, lo + 3, n - 1, op, r) {
      forall q: nat | q < r + 1 ensures t[lo + 3 * q] != op {
        if q > 0 { assert t[lo + 3 + 3 * (q - 1)] != op; }
      }
    }
  }

  lemma TripleStep(t: Table, lo: nat, n: nat, op: Byte, q: Prefs, reg: Byte)
    requires n > 0 && lo + 3 * n <= 516 && reg < 8
    ensures TripleForbids(t, lo, n, op, q, reg) <==>
            if t[lo] == op then Forbids(t, lo, q, reg) else TripleForbids(t, lo + 3, n - 1, op, q, reg)
  {
    assert |t| == 516;
    hide Shaped, Forbids, FirstTriple;
    FirstTripleHead(t, lo, n, op, 0);
    if TripleForbids(t, lo, n, op, q, reg) {
      var r: nat :| r < n && FirstTriple(t, lo, n, op, r) && Forbids(t, lo + 3 * r, q, reg);
      FirstTripleHead(t, lo, n, op, r);
      if t[lo] != op {
        FirstTripleTail(t, lo, n, op, r - 1);
        assert lo + 3 + 3 * (r - 1) == lo + 3 * r;
      }
    }
    if t[lo] != op && TripleForbids(t, lo + 3, n - 1, op, q, reg) {
      var r: nat :| r < n - 1 && FirstTriple(t, lo + 3, n - 1, op, r) && Forbids(t, lo + 3 + 3 * r, q, reg);
      FirstTripleTail(t, lo, n, op, r);
      assert lo + 3 + 3 * r == lo + 3 * (r + 1);
    }
  }

  lemma {:induction false} MemOnlyMeans(t: Table, lo: nat, n: nat, op: Byte, q: Prefs, reg: Byte)
    requires lo + 3 * n <= 516 && reg < 8
    ensures MemOnly(t, lo, lo + 3 * n, op, q, reg) <==> TripleForbids(t, lo, n, op, q, reg)
    decreases n
  {
    assert |t| == 516;
    hide Shaped, ShiftedClear, Bit, Meets, MaskMeets;
    if n > 0 {
      TripleStep(t, lo, n, op, q, reg);
      ShiftMeans(t[lo + 2], reg);
      MaskMeans(t[lo + 1], q);
      MemOnlyMeans(t, lo + 3, n - 1, op, q, reg);
    }
  }

  /** The opcode the ModRM rules look at. */
  function Code(i: Inst): Byte { if i.opcode == 0x0f then i.opcode2 else i.opcode }

  /** The register bit of the group's mask, and the floating-point validity bits. */
  predicate OpcodeRule(t: Table, i: Inst, mask: Byte)
    requires i.modrm.mid < 8 && i.modrm.low < 8
  {
    || (mask != 0 && !ShiftedClear(mask, i.modrm.mid))
    || (i.opcode2 == 0 && 0xd9 <= Code(i) <= 0xdf &&
        if i.modrm.top == 3 then !ShiftedClear(Cell(t, 248 + (Code(i) - 0xd9) * 8 + i.modrm.mid), i.modrm.low)
        else !ShiftedClear(Cell(t, 241 + (Code(i) - 0xd9)), i.modrm.mid))
  }

  /** `lock` needs a memory operand and a row in the lock table. */
  predicate LockRule(t: Table, i: Inst)
    requires i.modrm.mid < 8
  {
    || i.modrm.top == 3
    || !(if i.opcode2 != 0 then PairAllows(t, 441, 9, Code(i), i.modrm.mid)
         else PairAllows(t, 417, 12, Code(i) - Code(i) % 2, i.modrm.mid))
  }

  /** Registers that do not exist, and register operands that must be memory or the
      other way round. */
  predicate OperandRule(t: Table, i: Inst, q: Prefs)
    requires i.modrm.mid < 8
  {
    var reg := i.modrm.mid;
    if i.opcode2 == 0x20 || i.opcode2 == 0x22 then reg == 1 || reg == 5 || reg == 6 || reg == 7
    else if i.opcode2 == 0x21 || i.opcode2 == 0x23 then reg == 4 || reg == 5
    else if i.opcode2 == 0 && Code(i) == 0x8c then reg == 6 || reg == 7
    else if i.opcode2 == 0 && Code(i) == 0x8e then reg == 1 || reg == 6 || reg == 7
    else if i.modrm.top == 3 then
      if i.opcode2 != 0 then TripleForbids(t, 474, 14, Code(i), q, reg) else TripleForbids(t, 459, 5, Code(i), q, reg)
    else if i.opcode2 == 0x50 || i.opcode2 == 0xd7 || i.opcode2 == 0xf7 then q.none || q.p66
    else if i.opcode2 == 0xd6 then q.f2 || q.f3
    else i.opcode2 == 0xc5
  }

  lemma OpcodeRuleMeans(t: Table, i: Inst, mask: Byte)
    requires i.modrm.mid < 8 && i.modrm.low < 8 && i.modrm.top < 4
    ensures ModRmOpcodeBad(t, mask, i.opcode2 != 0, Code(i), i.modrm) <==> OpcodeRule(t, i, mask)
  {
    assert |t| == 516;
    hide Shaped, ShiftedClear, Bit;
    var op, m := Code(i), i.modrm;
    ShiftMeans(mask, m.mid);
    if 0xd9 <= op <= 0xdf {
      ShiftMeans(t[248 + (op - 0xd9) * 8 + m.mid], m.low);
      ShiftMeans(t[241 + (op - 0xd9)], m.mid);
    }
  }

  lemma LockRuleMeans(t: Table, i: Inst)
    requires i.modrm.mid < 8 && i.modrm.top < 4
    ensures LockBad(t, i.opcode2 != 0, Code(i), i.modrm.top, i.modrm.mid) <==> LockRule(t, i)
  {
    hide Shaped, LockAllowed, PairAllows;
    LockMeans(t, 441, 9, Code(i), i.modrm.mid);
    LockMeans(t, 417, 12, Code(i) - Code(i) % 2, i.modrm.mid);
  }

  lemma OperandRuleMeans(t: Table, i: Inst, q: Prefs)
    requires i.modrm.mid < 8 && i.modrm.top < 4 && (i.opcode != 0x0f ==> i.opcode2 == 0)
    ensures OperandBad(t, i.opcode2 != 0, Code(i), q, i.modrm.top, i.modrm.mid) <==> OperandRule(t, i, q)
  {
    hide Shaped, MemOnly, TripleForbids;
    MemOnlyMeans(t, 474, 14, Code(i), q, i.modrm.mid);
    MemOnlyMeans(t, 459, 5, Code(i), q, i.modrm.mid);
  }

  /** The faults of the ModRM section, added to those there were. */
  lemma CheckMeans(t: Table, h: State, m: Fields)
    requires m.mid < 8 && m.low < 8 && m.top < 4 && h.opcode == Code(h.hs)
    requires h.hs.opcode != 0x0f ==> h.hs.opcode2 == 0
    requires !h.hs.faults.lock && !h.hs.faults.operand && !h.hs.faults.length
    requires h.hs.faults.error <==> h.hs.faults.opcode
    ensures var f := CheckModRm(t, h, m); var i := h.hs.(modrm := m);
            && (f.opcode <==> h.hs.faults.opcode || OpcodeRule(t, i, h.mask))
            && (f.lock <==> h.pref.lock && LockRule(t, i))
            && (f.operand <==> OperandRule(t, i, h.pref))
            && !f.length && (f.error <==> f.opcode || f.lock || f.operand)
  {
    hide Shaped, ModRmOpcodeBad, OpcodeRule, LockBad, LockRule, OperandBad, OperandRule;
    var i := h.hs.(modrm := m);
    OpcodeRuleMeans(t, i, h.mask);
    LockRuleMeans(t, i);
    OperandRuleMeans(t, i, h.pref);
  }

  // ------------------------------------------------------------------
  // The immediates
  // ------------------------------------------------------------------

  /** Which operands follow: an 8-bit one, a 16-bit one, one whose size the prefix
      decides, an 8-bit branch, a branch whose size the prefix decides. */
  datatype Operands = Operands(byte: bool, word: bool, sized: bool, near: bool, far: bool)

  /** What the operand byte asks for; 0xf6 and 0xf7 with register field 0 or 1 are
      `test`, which has an immediate the rest of its group has not. */
  function Wanted(flags: Byte, i: Inst): Operands {
    var test := i.form.modrm && i.modrm.mid <= 1;
    Operands(BitOf(flags, 2) || (test && Code(i) == 0xf6), BitOf(flags, 4),
             BitOf(flags, 16) || (test && Code(i) == 0xf7), BitOf(flags, 32), BitOf(flags, 64))
  }

  /** The immediate bits those operands set. */
  predicate ImmsMean(f: Imms, o: Operands, p66: bool) {
    && (f.imm8 <==> o.byte || o.near)
    && (f.imm16 <==> o.word || (o.sized && p66))
    && (f.imm32 <==> o.sized && !p66)
    && (f.twoImm16 <==> o.word && o.sized && p66)
    && (f.relative <==> o.near || o.far)
  }

  /** Where the bytes of the immediates went; `end` is the offset behind the last.  A
      byte that follows a larger immediate lands on its low byte. */
  predicate ImmBytesMean(f: Imms, imm: Union4, disp: Union4, mem: Mem, at: Word, end: nat)
    requires end >= ImmBytes(f)
  {
    && (f.imm32 && !f.imm16 && !f.imm8 ==> Holds4(imm, mem, at, end - 4, 4))
    && (f.imm16 && !f.imm32 && !f.imm8 && !f.twoImm16 ==> Holds4(imm, mem, at, end - 2, 2))
    && (f.imm8 && !f.imm16 && !f.imm32 ==> Holds4(imm, mem, at, end - 1, 1))
    && (f.imm32 && f.imm16 && !f.imm8 ==>
          Holds4(imm, mem, at, end - 6, 4) && disp[0] == Peek(mem, at, end - 2) && disp[1] == Peek(mem, at, end - 1))
    && (f.imm16 && f.twoImm16 && !f.imm8 ==>
          Holds4(imm, mem, at, end - 4, 2) && disp[0] == Peek(mem, at, end - 2) && disp[1] == Peek(mem, at, end - 1))
    && (f.imm16 && f.imm8 && !f.imm32 && !f.twoImm16 ==>
          imm == [Peek(mem, at, end - 1), Peek(mem, at, end - 2), 0, 0])
    && (f.imm32 && f.imm8 && !f.imm16 ==>
          imm == [Peek(mem, at, end - 1), Peek(mem, at, end - 4), Peek(mem, at, end - 3), Peek(mem, at, end - 2)])
  }

  lemma StoreHolds(mem: Mem, at: Word, k: nat, n: nat)
    requires n <= 4
    ensures Holds4(Store([0, 0, 0, 0], PeekN(mem, at, k, n)), mem, at, k, n)
  {
  }

  /** Storing over what is there: the low bytes are new, the rest stays. */
  lemma StoreOver(u: Union4, mem: Mem, at: Word, k: nat, n: nat)
    requires n <= 4
    ensures var r := Store(u, PeekN(mem, at, k, n));
            forall j | 0 <= j < 4 :: r[j] == if j < n then Peek(mem, at, k + j) else u[j]
  {
  }

  lemma FlagsMean(mem: Mem, at: Word, cf: Flow, p66: bool, s: Imm)
    requires FlowOk(cf.(modrm := false)) && s.flags == NO_IMMS && !(cf.rel8 && cf.rel32)
    ensures var r := Immediates(mem, at, cf, p66, s);
            ImmsMean(r.flags, Operands(cf.imm8, cf.imm16, cf.immP66, cf.rel8, cf.rel32), p66)
  {
    hide Store, PeekN;
  }

  /** No 16-bit operand: one operand, or an 8-bit one behind a sized one. */
  lemma OneOperand(mem: Mem, at: Word, cf: Flow, p66: bool, s: Imm)
    requires FlowOk(cf.(modrm := false)) && s.flags == NO_IMMS && s.imm == [0, 0, 0, 0]
    requires !cf.imm16
    ensures var r := Immediates(mem, at, cf, p66, s);
            ImmBytesMean(r.flags, r.imm, r.disp, mem, at, r.p) && r.disp == s.disp
  {
    hide Store, PeekN, Holds4;
    StoreHolds(mem, at, s.p, 1);
    StoreHolds(mem, at, s.p, 2);
    StoreHolds(mem, at, s.p, 4);
    ByteBehind(mem, at, s.p, 2);
    ByteBehind(mem, at, s.p, 4);
  }

  /** An 8-bit immediate stored over a larger one. */
  lemma ByteBehind(mem: Mem, at: Word, k: nat, n: nat)
    requires n == 2 || n == 4
    ensures var u := Store([0, 0, 0, 0], PeekN(mem, at, k, n));
            Store(u, PeekN(mem, at, k + n, 1))
            == [Peek(mem, at, k + n), Peek(mem, at, k + 1), if n == 4 then Peek(mem, at, k + 2) else 0,
                if n == 4 then Peek(mem, at, k + 3) else 0]
  {
    hide Store, PeekN;
    StoreOver([0, 0, 0, 0], mem, at, k, n);
    StoreOver(Store([0, 0, 0, 0], PeekN(mem, at, k, n)), mem, at, k + n, 1);
  }

  /** A 16-bit operand, with another before or an 8-bit one behind it. */
  lemma TwoOperands(mem: Mem, at: Word, cf: Flow, p66: bool, s: Imm)
    requires FlowOk(cf.(modrm := false)) && s.flags == NO_IMMS && s.imm == [0, 0, 0, 0]
    requires cf.imm16
    ensures var r := Immediates(mem, at, cf, p66, s);
            ImmBytesMean(r.flags, r.imm, r.disp, mem, at, r.p) && r.disp[2..] == s.disp[2..]
  {
    hide Store, PeekN;
    StoreHolds(mem, at, s.p, 2);
    StoreHolds(mem, at, s.p, 4);
    StoreOver(s.disp, mem, at, s.p + 2, 2);
    StoreOver(s.disp, mem, at, s.p + 4, 2);
    StoreOver(Store([0, 0, 0, 0], PeekN(mem, at, s.p, 2)), mem, at, s.p + 2, 1);
  }

  // ------------------------------------------------------------------
  // The record
  // ------------------------------------------------------------------

  /** The state behind the opcode, of an instruction that is not cut. */
  lemma HeadMeans(t: Table, mem: Mem, at: Word)
    requires !Decode(t, mem, at).faults.length
    ensures var h := Head(t, mem, at); var n := Prefixes(mem, at);
            var two := Peek(mem, at, n) == 0x0f;
            && n <= 14 && !PrefixByte(Peek(mem, at, n)) && RecordsPrefixes(h.hs.pre, h.hs.prefixes, mem, at, n)
            && h.hs.opcode == Peek(mem, at, n) && h.hs.opcode2 == (if two then Peek(mem, at, n + 1) else 0)
            && h.opcode == Code(h.hs) && h.p == n + (if two then 2 else 1)
            && h.pref == InForce(h.hs.prefixes, h.hs.opcode)
            && h.cf == FlowOf(OperandByte(t, IndexOf(two), Code(h.hs)))
            && h.mask == RegisterMask(t, IndexOf(two), Code(h.hs)) && Untouched(h.hs)
            && !h.hs.faults.length && !h.hs.faults.lock && !h.hs.faults.operand
            && (h.hs.faults.error <==> h.hs.faults.opcode)
            && (h.hs.faults.opcode <==>
                TwoSteps(t, IndexOf(two), Code(h.hs)) == 0xff
                || (h.hs.opcode2 != 0 && MaskMeets(TwoSteps(t, 304, Code(h.hs)), h.pref)))
  {
    hide Decode, ScanPrefixes, RecordsPrefixes, OpcodeSection, TwoSteps, OperandByte, RegisterMask, MaskMeets, FlowOf;
    hide IndexOf, PrefixByte;
    UncutScan(t, mem, at);
    NotNone(mem, at);
    OpcodeMeans(t, mem, at, ScanPrefixes(mem, at, MAX_SCAN, SCAN_START));
  }

  lemma {:induction false} ScanNotNone(mem: Mem, at: Word, x: nat, s: Scan)
    requires !s.pref.none
    ensures !ScanPrefixes(mem, at, x, s).pref.none
    decreases x
  {
    if x > 0 && IsPrefix(Peek(mem, at, s.p)) {
      ScanNotNone(mem, at, x - 1, AddPrefix(s, Peek(mem, at, s.p)));
    }
  }

  lemma {:induction false} NotNone(mem: Mem, at: Word)
    ensures !ScanPrefixes(mem, at, MAX_SCAN, SCAN_START).pref.none
  {
    hide ScanPrefixes;
    ScanNotNone(mem, at, MAX_SCAN, SCAN_START);
  }

  /** The operand byte of the table has a ModRM byte follow. */
  predicate HasModRm(t: Table, i: Inst) {
    BitOf(OperandByte(t, IndexOf(i.opcode == 0x0f), Code(i)), 1)
  }

  /** What the bytes from `m` on are taken for. */
  predicate AddressMeans(t: Table, i: Inst, mem: Mem, at: Word, m: nat) {
    if HasModRm(t, i) then
      && FormMeans(i, i.prefixes.p67) && PartsOf(i.modrm, Peek(mem, at, m))
      && (if i.form.sib then PartsOf(i.sib, Peek(mem, at, m + 1)) else i.sib == Fields(0, 0, 0, 0))
      && Holds4(i.disp, mem, at, m + (if i.form.sib then 2 else 1), DispBytes(i.form))
    else
      i.form == Form(false, false, false, false, false) && i.modrm == Fields(0, 0, 0, 0) && i.sib == Fields(0, 0, 0, 0)
  }

  /** Which faults a record reports. */
  predicate FaultsMean(t: Table, i: Inst) {
    var two := i.opcode == 0x0f;
    var q := InForce(i.prefixes, i.opcode);
    && i.modrm.mid < 8 && i.modrm.low < 8
    && (i.faults.error <==> i.faults.opcode || i.faults.lock || i.faults.operand)
    && (i.faults.opcode <==>
        || TwoSteps(t, IndexOf(two), Code(i)) == 0xff
        || (i.opcode2 != 0 && MaskMeets(TwoSteps(t, 304, Code(i)), q))
        || (HasModRm(t, i) && OpcodeRule(t, i, RegisterMask(t, IndexOf(two), Code(i)))))
    && (i.faults.lock <==> q.lock && (HasModRm(t, i) ==> LockRule(t, i)))
    && (i.faults.operand <==> HasModRm(t, i) && OperandRule(t, i, q))
  }

  lemma ModRmMeans(t: Table, mem: Mem, at: Word, h: State)
    requires h.opcode == Code(h.hs) && (h.hs.opcode != 0x0f ==> h.hs.opcode2 == 0) && Untouched(h.hs)
    requires h.pref == InForce(h.hs.prefixes, h.hs.opcode)
    requires !h.hs.faults.lock && !h.hs.faults.operand && !h.hs.faults.length
    requires h.hs.faults.error <==> h.hs.faults.opcode
    requires h.hs.faults.opcode <==>
             TwoSteps(t, IndexOf(h.hs.opcode == 0x0f), h.opcode) == 0xff
             || (h.hs.opcode2 != 0 && MaskMeets(TwoSteps(t, 304, h.opcode), h.pref))
    requires h.cf == FlowOf(OperandByte(t, IndexOf(h.hs.opcode == 0x0f), h.opcode))
    requires h.mask == RegisterMask(t, IndexOf(h.hs.opcode == 0x0f), h.opcode)
    ensures var b := ModRmSection(t, mem, at, h);
            && AddressMeans(t, b.hs, mem, at, h.p) && FaultsMean(t, b.hs) && !b.hs.faults.length
            && b.pref == h.pref && b.hs.imm == [0, 0, 0, 0] && b.hs.imms == NO_IMMS
            && b.hs.pre == h.hs.pre && b.hs.prefixes == h.hs.prefixes && b.hs.opcode == h.hs.opcode
            && b.hs.opcode2 == h.hs.opcode2
            && (!HasModRm(t, b.hs) ==> b.hs.disp == [0, 0, 0, 0])
  {
    hide Shaped, TwoSteps, OperandByte, RegisterMask, MaskMeets, OpcodeRule, LockRule, OperandRule;
    hide CheckModRm, Addressing, Split, IndexOf, PartsOf, Holds4;
    FlagBits(OperandByte(t, IndexOf(h.hs.opcode == 0x0f), h.opcode));
    if h.cf.modrm {
      var m := Split(Peek(mem, at, h.p));
      SplitParts(Peek(mem, at, h.p));
      CheckMeans(t, h, m);
      AddressingMeans(mem, at, h.pref, ModOf(h, m), m.low, h.p + 1);
      RulesLookAt(t, h.hs.(modrm := m), ModRmSection(t, mem, at, h).hs, h.mask, h.pref);
    }
  }

  /** The rules look at the opcode and the ModRM byte only. */
  lemma RulesLookAt(t: Table, i: Inst, j: Inst, mask: Byte, q: Prefs)
    requires i.opcode == j.opcode && i.opcode2 == j.opcode2 && i.modrm == j.modrm
    requires i.modrm.mid < 8 && i.modrm.low < 8
    ensures OpcodeRule(t, i, mask) <==> OpcodeRule(t, j, mask)
    ensures LockRule(t, i) <==> LockRule(t, j)
    ensures OperandRule(t, i, q) <==> OperandRule(t, j, q)
  {
    hide Shaped, PairAllows, TripleForbids, ShiftedClear;
  }

  /** The operand byte's bits, one by one. */
  lemma FlagBits(b: Byte)
    ensures FlowOf(b) == Flow(BitOf(b, 1), BitOf(b, 2), BitOf(b, 4), BitOf(b, 16), BitOf(b, 32), BitOf(b, 64))
  {
  }

  function Operating(t: Table, i: Inst): Byte {
    OperandByte(t, IndexOf(i.opcode == 0x0f), Code(i))
  }

  /** The operands still to be read behind the address form. */
  lemma BodyFlow(t: Table, mem: Mem, at: Word)
    requires !Decode(t, mem, at).faults.length
    ensures var b := Body(t, mem, at); var o := Wanted(Operating(t, b.hs), b.hs);
            && o == Operands(b.cf.imm8, b.cf.imm16, b.cf.immP66, b.cf.rel8, b.cf.rel32)
            && FlowOk(b.cf.(modrm := false)) && !(b.cf.rel8 && b.cf.rel32)
            && (b.hs.form.modrm ==> !b.cf.imm16) && (b.hs.form.modrm <==> HasModRm(t, b.hs))
            && b.p == Prefixes(mem, at) + (if b.hs.opcode == 0x0f then 2 else 1) + FormBytes(b.hs.form)
  {
    hide Decode, Shaped, Head, OperandByte, CheckModRm, Addressing, Split, RecordsPrefixes, IndexOf;
    hide TwoSteps, MaskMeets, RegisterMask, FlowOf, BitOf;
    var h := Head(t, mem, at);
    HeadMeans(t, mem, at);
    HeadCursor(t, mem, at);
    BodyCursor(t, mem, at);
    ElevenBytes(t, h.hs);
    FlagBits(Operating(t, h.hs));
    if h.cf.modrm {
      var m := Split(Peek(mem, at, h.p));
      AddressingMeans(mem, at, h.pref, ModOf(h, m), m.low, h.p + 1);
    }
  }

  /** None of the operand bytes has both kinds of branch, and one with a ModRM byte
      has no 16-bit operand. */
  lemma ElevenBytes(t: Table, i: Inst)
    ensures var f := FlowOf(Operating(t, i)); !(f.rel8 && f.rel32) && (f.modrm ==> !f.imm16)
  {
    hide Shaped, OperandByte, EntryOf;
    EntryMeans(t, i.opcode == 0x0f, Code(i));
    EntryFlags(t, if i.opcode == 0x0f then DELTA_OPCODES else 0, Code(i));
  }

  /** What the state behind the address form says. */
  lemma BodyMeans(t: Table, mem: Mem, at: Word)
    requires !Decode(t, mem, at).faults.length
    ensures var b := Body(t, mem, at); var n := Prefixes(mem, at);
            var two := Peek(mem, at, n) == 0x0f;
            && n <= 14 && !PrefixByte(Peek(mem, at, n)) && RecordsPrefixes(b.hs.pre, b.hs.prefixes, mem, at, n)
            && b.hs.opcode == Peek(mem, at, n) && b.hs.opcode2 == (if two then Peek(mem, at, n + 1) else 0)
            && AddressMeans(t, b.hs, mem, at, n + (if two then 2 else 1)) && FaultsMean(t, b.hs)
            && b.pref == InForce(b.hs.prefixes, b.hs.opcode)
            && b.hs.imm == [0, 0, 0, 0] && b.hs.imms == NO_IMMS && !b.hs.faults.length
            && (!HasModRm(t, b.hs) ==> b.hs.disp == [0, 0, 0, 0])
  {
    hide Decode, Shaped, Head, ModRmSection, AddressMeans, FaultsMean, RecordsPrefixes, PrefixByte, HasModRm;
    hide TwoSteps, OperandByte, RegisterMask, MaskMeets, FlowOf, IndexOf, InForce;
    HeadMeans(t, mem, at);
    ModRmMeans(t, mem, at, Head(t, mem, at));
  }

  /** The rules do not look at the immediates or the length. */
  lemma SameReading(t: Table, b: Inst, i: Inst, mem: Mem, at: Word, m: nat)
    requires i == b.(imm := i.imm, disp := i.disp, imms := i.imms, len := i.len)
    requires FaultsMean(t, b) && AddressMeans(t, b, mem, at, m) && (HasModRm(t, b) ==> i.disp == b.disp)
    ensures FaultsMean(t, i) && AddressMeans(t, i, mem, at, m) && (HasModRm(t, i) <==> HasModRm(t, b))
  {
    hide Shaped, OperandByte, TwoSteps, RegisterMask, OpcodeRule, LockRule, OperandRule, MaskMeets, Holds4, PartsOf;
    if HasModRm(t, b) {
      RulesLookAt(t, b, i, RegisterMask(t, IndexOf(b.opcode == 0x0f), Code(b)), InForce(b.prefixes, b.opcode));
    }
  }

  /** Prefixes and opcode: the record tells which prefix bytes there are, and names
      the byte behind them, two behind 0x0f. */
  lemma PrefixesAreRecorded(t: Table, mem: Mem, at: Word)
    requires !Decode(t, mem, at).faults.length
    ensures var i := Decode(t, mem, at); var n := Prefixes(mem, at);
            && n <= 14 && !PrefixByte(Peek(mem, at, n)) && RecordsPrefixes(i.pre, i.prefixes, mem, at, n)
            && i.opcode == Peek(mem, at, n)
            && i.opcode2 == (if i.opcode == 0x0f then Peek(mem, at, n + 1) else 0)
  {
    hide Body, RecordsPrefixes, PrefixByte, Immediates;
    BodyMeans(t, mem, at);
    LengthIsAccounted(t, mem, at);
  }

  /** The bytes behind the opcode: ModRM, SIB and displacement, there exactly when the
      opcode and these bytes themselves ask for them; and the faults reported. */
  lemma AddressIsRecorded(t: Table, mem: Mem, at: Word)
    requires !Decode(t, mem, at).faults.length
    ensures var i := Decode(t, mem, at);
            && AddressMeans(t, i, mem, at, Prefixes(mem, at) + (if i.opcode == 0x0f then 2 else 1))
            && FaultsMean(t, i)
  {
    hide Body, RecordsPrefixes, PrefixByte, Immediates, AddressMeans, FaultsMean, Wanted, FlowOf, HasModRm, Shaped;
    var b, i := Body(t, mem, at), Decode(t, mem, at);
    BodyMeans(t, mem, at);
    LengthIsAccounted(t, mem, at);
    BodyFlow(t, mem, at);
    if HasModRm(t, b.hs) { DispStays(mem, at, b); }
    SameReading(t, b.hs, i, mem, at, Prefixes(mem, at) + (if i.opcode == 0x0f then 2 else 1));
  }

  lemma DispStays(mem: Mem, at: Word, b: State)
    requires !b.cf.imm16
    ensures ImmSection(mem, at, b).hs.disp == b.hs.disp
  {
  }

  /** The bytes that end the instruction: the immediates the opcode asks for, sized by
      the operand-size prefix. */
  lemma ImmediatesAreRecorded(t: Table, mem: Mem, at: Word)
    requires !Decode(t, mem, at).faults.length
    ensures var i := Decode(t, mem, at);
            && ImmsMean(i.imms, Wanted(Operating(t, i), i), InForce(i.prefixes, i.opcode).p66)
            && i.len >= ImmBytes(i.imms) && ImmBytesMean(i.imms, i.imm, i.disp, mem, at, i.len)
  {
    hide Body, RecordsPrefixes, PrefixByte, Immediates, AddressMeans, FaultsMean, HasModRm, Shaped;
    hide ImmBytesMean, ImmsMean, OperandByte, BitOf;
    var b, i := Body(t, mem, at), Decode(t, mem, at);
    BodyMeans(t, mem, at);
    LengthIsAccounted(t, mem, at);
    BodyFlow(t, mem, at);
    var s := Imm(b.hs.imm, b.hs.disp, b.hs.imms, b.p);
    FlagsMean(mem, at, b.cf, b.pref.p66, s);
    ImmCursor(mem, at, b.cf, b.pref.p66, s);
    if b.cf.imm16 {
      TwoOperands(mem, at, b.cf, b.pref.p66, s);
    } else {
      OneOperand(mem, at, b.cf, b.pref.p66, s);
    }
  }
}
