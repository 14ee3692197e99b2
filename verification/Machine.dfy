/**
  Hooking preserves meaning.

  A small stepping machine runs the planted jumps concretely (`jmp rel32`,
  `push imm32`, `ret`, `mov eax, imm32`, `jmp eax`) and every other instruction
  through an arbitrary `exec`, which sees the instruction's bytes and the
  registers but not where the instruction lies.  Code is read from `code` and is
  not written by the program.
 */
module Machine {
  import opened OpcodeTable
  import opened Decoder
  import opened DecoderTheory
  import opened HookLength
  import opened CodeHooks

  /** Registers and data; `rest` is everything the jumps do not name. */
  datatype Regs<D> = Regs(eax: Word, esp: Word, stack: map<Word, Word>, rest: D)

  datatype Cpu<D> = Cpu(eip: Word, regs: Regs<D>)

  datatype Next<D> = Stuck | Go(cpu: Cpu<D>)

  type Exec<!D> = (seq<Byte>, Regs<D>) -> Regs<D>

  /** Instructions that do not simply fall through. */
  predicate Transfers(i: Inst) {
    || i.imms.relative
    || i.opcode in {0x9a, 0xc2, 0xc3, 0xca, 0xcb, 0xcc, 0xcd, 0xce, 0xcf, 0xe8, 0xe9, 0xea, 0xeb, 0xf1, 0xf4}
    || (i.opcode == 0xff && 2 <= i.modrm.mid <= 5)
  }

  function Push<D>(r: Regs<D>, w: Word): Regs<D> {
    r.(esp := Add(r.esp, -4), stack := r.stack[Add(r.esp, -4) := w])
  }

  function Top<D>(r: Regs<D>): Word {
    if r.esp in r.stack then r.stack[r.esp] else 0
  }

  function Imm32At(code: Mem, at: Word): Word {
    FromLe32(PeekN(code, at, 1, 4))
  }

  function Step<D>(t: Table, code: Mem, exec: Exec<D>, s: Cpu<D>): Next<D> {
    var b0 := Peek(code, s.eip, 0);
    var next5 := Add(s.eip, 5);
    if b0 == 0xE9 then Go(Cpu(Add(next5, Imm32At(code, s.eip)), s.regs))
    else if b0 == 0x68 then Go(Cpu(next5, Push(s.regs, Imm32At(code, s.eip))))
    else if b0 == 0xB8 then Go(Cpu(next5, s.regs.(eax := Imm32At(code, s.eip))))
    else if b0 == 0xC3 then Go(Cpu(Top(s.regs), s.regs.(esp := Add(s.regs.esp, 4))))
    else if b0 == 0xFF && Peek(code, s.eip, 1) == 0xE0 then Go(Cpu(s.regs.eax, s.regs))
    else
      var i := Decode(t, code, s.eip);
      if i.faults.error || Transfers(i) then Stuck
      else Go(Cpu(Add(s.eip, i.len), exec(PeekN(code, s.eip, 0, i.len), s.regs)))
  }

  function Run<D>(t: Table, code: Mem, exec: Exec<D>, k: nat, s: Cpu<D>): Next<D> {
    if k == 0 then Go(s)
    else
      match Step(t, code, exec, s)
      case Stuck => Stuck
      case Go(s1) => Run(t, code, exec, k - 1, s1)
  }

  lemma {:induction false} RunThen<D>(t: Table, code: Mem, exec: Exec<D>, j: nat, k: nat, s: Cpu<D>, s1: Cpu<D>)
    requires Run(t, code, exec, j, s) == Go(s1)
    ensures Run(t, code, exec, j + k, s) == Run(t, code, exec, k, s1)
  {
    hide Step;
    if j > 0 {
      RunThen(t, code, exec, j - 1, k, Step(t, code, exec, s).cpu, s1);
    }
  }

  // ------------------------------------------------------------------
  // Decoding the instructions the machine knows
  // ------------------------------------------------------------------

  lemma {:induction false} NoPrefix(t: Table, code: Mem, at: Word)
    requires !IsPrefix(Peek(code, at, 0))
    ensures Prefixes(code, at) == 0
    ensures ScanPrefixes(code, at, MAX_SCAN, SCAN_START) == Scan(SCAN_START.pre, NO_PREFS, Peek(code, at, 0), 1)
  {
  }

  lemma HeadOfPlain(t: Table, code: Mem, at: Word, e: Entry)
    requires var b := Peek(code, at, 0); !IsPrefix(b) && b != 0x0f && !(0xa0 <= b <= 0xa3)
    requires e == EntryOf(t, 0, Peek(code, at, 0))
    ensures var h := Head(t, code, at);
            && h.cf == FlowOf(e.flags) && h.p == 1 && h.pref == NO_PREFS.(none := true)
            && h.hs.opcode == Peek(code, at, 0)
  {
    hide EntryOf, Lookup, Shaped, FlowOf;
    NoPrefix(t, code, at);
  }

  /** `push imm32` and `mov eax, imm32` are five bytes long. */
  lemma Imm32Length(t: Table, code: Mem, at: Word)
    requires Peek(code, at, 0) == 0x68 || Peek(code, at, 0) == 0xB8
    ensures Decode(t, code, at).len == 5
  {
    var e := EntryOf(t, 0, Peek(code, at, 0));
    assert e == Entry(false, 0x10, 0);
    HeadOfPlain(t, code, at, e);
    SectionsOfImm32(t, code, at);
  }

  lemma SectionsOfImm32(t: Table, code: Mem, at: Word)
    requires var h := Head(t, code, at);
             h.cf == FlowOf(0x10) && h.p == 1 && h.pref == NO_PREFS.(none := true)
    ensures Decode(t, code, at).len == 5
  {
    hide Head, Shaped;
  }

  /** The 0xff group carries a ModRM byte. */
  lemma GroupFF(t: Table, code: Mem, at: Word)
    requires Peek(code, at, 0) == 0xFF
    ensures Decode(t, code, at).opcode == 0xFF
    ensures Decode(t, code, at).modrm == Split(Peek(code, at, 1))
  {
    var e := EntryOf(t, 0, 0xFF);
    assert e.flags == 1 by {
      assert t[0xff / 4] + 3 <= 0xd9;
    }
    HeadOfPlain(t, code, at, e);
    ModRmOf(t, code, at);
  }

  lemma ModRmOf(t: Table, code: Mem, at: Word)
    requires var h := Head(t, code, at); h.cf.modrm && h.p == 1 && h.hs.opcode == 0xFF
    ensures Decode(t, code, at).opcode == 0xFF
    ensures Decode(t, code, at).modrm == Split(Peek(code, at, 1))
  {
    hide Head, Shaped, CheckModRm, Addressing;
  }

  lemma PlainOpcode(t: Table, code: Mem, at: Word)
    requires !IsPrefix(Peek(code, at, 0))
    ensures !Decode(t, code, at).faults.length ==> Decode(t, code, at).opcode == Peek(code, at, 0)
  {
    hide Decode;
    NoPrefix(t, code, at);
    LengthIsAccounted(t, code, at);
  }

  // ------------------------------------------------------------------
  // Straight-line prefixes
  // ------------------------------------------------------------------

  /** What a straight-line instruction does, from its bytes alone. */
  function Effect<D>(exec: Exec<D>, bytes: seq<Byte>, r: Regs<D>): Regs<D>
    requires bytes != []
  {
    if bytes[0] == 0x68 && |bytes| == 5 then Push(r, FromLe32(bytes[1..5]))
    else if bytes[0] == 0xB8 && |bytes| == 5 then r.(eax := FromLe32(bytes[1..5]))
    else exec(bytes, r)
  }

  /** An instruction that decodes without error and falls through. */
  predicate StraightAt(t: Table, code: Mem, at: Word) {
    var i := Decode(t, code, at);
    !i.faults.error && !Transfers(i)
  }

  lemma NotAJump(t: Table, code: Mem, at: Word)
    requires StraightAt(t, code, at)
    ensures var b := Peek(code, at, 0);
            b != 0xE9 && b != 0xC3 && !(b == 0xFF && Peek(code, at, 1) == 0xE0)
  {
    hide Decode;
    var b := Peek(code, at, 0);
    LengthPositive(t, code, at);
    if b == 0xE9 || b == 0xC3 {
      PlainOpcode(t, code, at);
    }
    if b == 0xFF {
      GroupFF(t, code, at);
    }
  }

  /** So its step is the effect of its bytes, then the next address. */
  lemma StraightStep<D>(t: Table, code: Mem, exec: Exec<D>, s: Cpu<D>)
    requires StraightAt(t, code, s.eip)
    ensures var len := Decode(t, code, s.eip).len;
            && len >= 1
            && Step(t, code, exec, s)
               == Go(Cpu(Add(s.eip, len), Effect(exec, PeekN(code, s.eip, 0, len), s.regs)))
  {
    hide Decode;
    var b := Peek(code, s.eip, 0);
    LengthPositive(t, code, s.eip);
    NotAJump(t, code, s.eip);
    var len := Decode(t, code, s.eip).len;
    var bytes := PeekN(code, s.eip, 0, len);
    assert bytes[0] == b;
    if b == 0x68 || b == 0xB8 {
      Imm32Length(t, code, s.eip);
      assert bytes[1..5] == PeekN(code, s.eip, 1, 4);
    }
  }

  /** Every instruction from offset `n` up to `want` falls through. */
  predicate Straight(t: Table, mem: Mem, at: Word, n: nat, want: nat)
    decreases want - n
  {
    n < want ==>
      var len := Decode(t, mem, Add(at, n)).len;
      StraightAt(t, mem, Add(at, n)) && len > 0 && Straight(t, mem, at, n + len, want)
  }

  /** An accepted straight-line prefix and a copy of it elsewhere run alike, from
      the same registers to the same registers, in the same number of steps. */
  lemma {:induction false} PrefixRunsAlike<D>(t: Table, m1: Mem, a1: Word, m2: Mem, a2: Word,
                                              n: nat, want: nat, exec: Exec<D>, r: Regs<D>)
    returns (k: nat, r': Regs<D>)
    requires Tiles(t, m1, a1, n, want) && Straight(t, m1, a1, n, want)
    requires Same(m1, a1, m2, a2, want)
    ensures Run(t, m1, exec, k, Cpu(Add(a1, n), r)) == Go(Cpu(Add(a1, want), r'))
    ensures Run(t, m2, exec, k, Cpu(Add(a2, n), r)) == Go(Cpu(Add(a2, want), r'))
    decreases want - n
  {
    hide Decode, Step;
    if n >= want {
      return 0, r;
    }
    var x1, x2 := Add(a1, n), Add(a2, n);
    var len := Decode(t, m1, x1).len;
    CopyDecodes(t, m1, a1, m2, a2, n, want);
    TilesBound(t, m1, a1, n, want);
    SameShifted(m1, a1, m2, a2, n, len, want);
    SamePeekN(m1, x1, m2, x2, len, 0, len);
    StraightStep(t, m1, exec, Cpu(x1, r));
    StraightStep(t, m2, exec, Cpu(x2, r));
    AddAdd(a1, n, len);
    AddAdd(a2, n, len);
    var j;
    j, r' := PrefixRunsAlike(t, m1, a1, m2, a2, n + len, want, exec, Effect(exec, PeekN(m1, x1, 0, len), r));
    k := j + 1;
  }

  // ------------------------------------------------------------------
  // The planted jumps
  // ------------------------------------------------------------------

  /** `bytes` are in memory at `at`. */
  ghost predicate Reads(code: Mem, at: Word, bytes: seq<Byte>) {
    forall i: nat | i < |bytes| :: Peek(code, at, i) == bytes[i]
  }

  lemma ReadsImm32(code: Mem, at: Word, op: Byte, w: Word, rest: seq<Byte>)
    requires Reads(code, at, [op] + Le32(w) + rest)
    ensures Peek(code, at, 0) == op && Imm32At(code, at) == w
  {
    var all := [op] + Le32(w) + rest;
    assert all[0] == op;
    assert forall k: nat | k < 4 :: all[1 + k] == Le32(w)[k];
    assert PeekN(code, at, 1, 4) == Le32(w);
    Le32RoundTrip(w);
  }

  lemma ReadsPart(code: Mem, at: Word, a: seq<Byte>, b: seq<Byte>)
    requires Reads(code, at, a + b)
    ensures Reads(code, at, a) && Reads(code, Add(at, |a|), b)
  {
    forall i: nat | i < |a| ensures Peek(code, at, i) == a[i] {
      assert (a + b)[i] == a[i];
    }
    forall i: nat | i < |b| ensures Peek(code, Add(at, |a|), i) == b[i] {
      PeekAdd(code, at, |a|, i);
      assert (a + b)[|a| + i] == b[i];
    }
  }

  /** `jmp rel32` arrives, for every pair of addresses. */
  lemma {:induction false} JmpRelArrives<D>(t: Table, code: Mem, exec: Exec<D>, at: Word, to: Word, r: Regs<D>)
    requires Reads(code, at, JmpRel(at, to))
    ensures Run(t, code, exec, 1, Cpu(at, r)) == Go(Cpu(to, r))
  {
    hide Decode;
    ReadsImm32(code, at, 0xE9, Diff(to, Add(at, 5)), []);
    AddDiff(to, Add(at, 5));
    assert Step(t, code, exec, Cpu(at, r)) == Go(Cpu(to, r));
  }

  /** `push imm32; ret` arrives with the stack pointer restored; only the dead slot
      below it has changed. */
  lemma {:induction false} PushRetArrives<D>(t: Table, code: Mem, exec: Exec<D>, at: Word, to: Word, r: Regs<D>)
    requires Reads(code, at, PushRet(to))
    ensures Run(t, code, exec, 2, Cpu(at, r))
            == Go(Cpu(to, r.(stack := r.stack[Add(r.esp, -4) := to])))
  {
    hide Decode;
    ReadsImm32(code, at, 0x68, to, [0xC3]);
    var s1 := Cpu(Add(at, 5), Push(r, to));
    PeekAdd(code, at, 5, 0);
    assert PushRet(to)[5] == 0xC3;
    RetPops(t, code, exec, s1.eip, to, r);
    TwoSteps(t, code, exec, Cpu(at, r), s1);
  }

  /** `ret` undoes a `push`, but for the slot. */
  lemma RetPops<D>(t: Table, code: Mem, exec: Exec<D>, at: Word, to: Word, r: Regs<D>)
    requires Peek(code, at, 0) == 0xC3
    ensures Step(t, code, exec, Cpu(at, Push(r, to)))
            == Go(Cpu(to, r.(stack := r.stack[Add(r.esp, -4) := to])))
  {
    hide Decode, Peek;
    AddAdd(r.esp, -4, 4);
  }

  lemma {:induction false} TwoSteps<D>(t: Table, code: Mem, exec: Exec<D>, s: Cpu<D>, s1: Cpu<D>)
    requires Step(t, code, exec, s) == Go(s1)
    ensures Run(t, code, exec, 2, s) == Step(t, code, exec, s1)
  {
    hide Step;
    assert Run(t, code, exec, 2, s) == Run(t, code, exec, 1, s1);
    match Step(t, code, exec, s1)
    case Stuck =>
    case Go(s2) => assert Run(t, code, exec, 0, s2) == Go(s2);
  }

  /** `mov eax, imm32; jmp eax` arrives with eax overwritten. */
  lemma {:induction false} MovJmpArrives<D>(t: Table, code: Mem, exec: Exec<D>, at: Word, to: Word, r: Regs<D>)
    requires Reads(code, at, MovJmp(to))
    ensures Run(t, code, exec, 2, Cpu(at, r)) == Go(Cpu(to, r.(eax := to)))
  {
    hide Decode;
    ReadsImm32(code, at, 0xB8, to, [0xFF, 0xE0]);
    var s1 := Cpu(Add(at, 5), r.(eax := to));
    PeekAdd(code, at, 5, 0);
    PeekAdd(code, at, 5, 1);
    assert MovJmp(to)[5] == 0xFF && MovJmp(to)[6] == 0xE0;
    TwoSteps(t, code, exec, Cpu(at, r), s1);
  }

  // ------------------------------------------------------------------
  // Planted hooks
  // ------------------------------------------------------------------

  /** `after` is memory once a trampoline and a patch have been written. */
  ghost predicate IsPlanted(before: Mem, after: Mem, tr: Word, tramp: seq<Byte>, target: Word, patch: seq<Byte>) {
    && |tramp| <= 256 && |patch| <= 256
    && Block(tr, |tramp|) !! Block(target, |patch|)
    && forall x :: after(x) == Planted(before, tr, tramp, target, patch)(x)
  }

  lemma PlantedReads(before: Mem, after: Mem, tr: Word, tramp: seq<Byte>, target: Word, patch: seq<Byte>)
    requires IsPlanted(before, after, tr, tramp, target, patch)
    ensures Reads(after, tr, tramp) && Reads(after, target, patch)
  {
    forall i: nat | i < |patch| ensures Peek(after, target, i) == patch[i] {
      DiffAdd(target, i);
    }
    forall i: nat | i < |tramp| ensures Peek(after, tr, i) == tramp[i] {
      var x := Add(tr, i);
      DiffAdd(tr, i);
      InBlock(x, tr, |tramp|);
      InBlock(x, target, |patch|);
    }
  }

  /** The copied prefix reads like the original did. */
  lemma CopyIsSame(before: Mem, after: Mem, tr: Word, target: Word, len: nat, back: seq<Byte>)
    requires Reads(after, tr, PeekN(before, target, 0, len) + back)
    ensures Same(before, target, after, tr, len) && Reads(after, Add(tr, len), back)
  {
    ReadsPart(after, tr, PeekN(before, target, 0, len), back);
    forall i: nat | i < len ensures Peek(before, target, i) == Peek(after, tr, i) {
      assert PeekN(before, target, 0, len)[i] == Peek(before, target, i);
    }
  }

  /** A copied prefix runs like the original and then meets the jump back. */
  lemma CopyRuns<D>(t: Table, before: Mem, after: Mem, target: Word, len: nat, tr: Word, back: seq<Byte>,
                    exec: Exec<D>, r: Regs<D>)
    returns (k: nat, r': Regs<D>)
    requires LenOk(t, before, target, len) && Straight(t, before, target, 0, len)
    requires Reads(after, tr, PeekN(before, target, 0, len) + back)
    ensures Run(t, before, exec, k, Cpu(target, r)) == Go(Cpu(Add(target, len), r'))
    ensures Run(t, after, exec, k, Cpu(tr, r)) == Go(Cpu(Add(tr, len), r'))
    ensures Reads(after, Add(tr, len), back)
  {
    hide Run, Decode, Step, Tiles, Straight, Reads, Same, PeekN;
    CopyIsSame(before, after, tr, target, len, back);
    k, r' := PrefixRunsAlike(t, before, target, after, tr, 0, len, exec, r);
  }

  /** A copied prefix with a relative jump back is the original code, and a relative
      jump at the target enters the detour. */
  lemma RelativeHookRuns<D>(t: Table, before: Mem, after: Mem, target: Word, detour: Word, len: nat, tr: Word,
                            exec: Exec<D>, r: Regs<D>)
    returns (k: nat, r': Regs<D>)
    requires 5 <= len <= 64 && LenOk(t, before, target, len) && Straight(t, before, target, 0, len)
    requires Reads(after, tr, TrampRel(before, target, len, tr)) && Reads(after, target, PatchRel(target, detour, len))
    ensures Run(t, before, exec, k, Cpu(target, r)) == Go(Cpu(Add(target, len), r'))
    ensures Run(t, after, exec, k + 1, Cpu(tr, r)) == Go(Cpu(Add(target, len), r'))
    ensures Run(t, after, exec, 1, Cpu(target, r)) == Go(Cpu(detour, r))
  {
    hide Run, Decode, Step, LenOk, Straight, Reads, PeekN, JmpRel, Nops;
    k, r' := CopyRuns(t, before, after, target, len, tr, JmpRel(Add(tr, len), Add(target, len)), exec, r);
    JmpRelArrives(t, after, exec, Add(tr, len), Add(target, len), r');
    RunThen(t, after, exec, k, 1, Cpu(tr, r), Cpu(Add(tr, len), r'));
    ReadsPart(after, target, JmpRel(target, detour), Nops(len - 5));
    JmpRelArrives(t, after, exec, target, detour, r);
  }

  /** The relative hook: running the trampoline is running the original prefix and
      going on behind it; running the patched target is calling the detour. */
  lemma RelativeHookPreserves<D>(t: Table, before: Mem, after: Mem, target: Word, detour: Word, len: nat, tr: Word,
                                 exec: Exec<D>, r: Regs<D>)
    returns (k: nat, r': Regs<D>)
    requires 5 <= len <= 64 && LenOk(t, before, target, len) && Straight(t, before, target, 0, len)
    requires IsPlanted(before, after, tr, TrampRel(before, target, len, tr), target, PatchRel(target, detour, len))
    ensures Run(t, before, exec, k, Cpu(target, r)) == Go(Cpu(Add(target, len), r'))
    ensures Run(t, after, exec, k + 1, Cpu(tr, r)) == Go(Cpu(Add(target, len), r'))
    ensures Run(t, after, exec, 1, Cpu(target, r)) == Go(Cpu(detour, r))
  {
    hide Run, LenOk, Straight, IsPlanted, Reads, TrampRel, PatchRel;
    PlantedReads(before, after, tr, TrampRel(before, target, len, tr), target, PatchRel(target, detour, len));
    k, r' := RelativeHookRuns(t, before, after, target, detour, len, tr, exec, r);
  }

  /** The absolute hook: the same, except that the trampoline leaves eax holding
      the address it jumped to, and the patched target a dead stack slot. */
  lemma AbsoluteHookPreserves<D>(t: Table, before: Mem, after: Mem, target: Word, detour: Word, len: nat, tr: Word,
                                 exec: Exec<D>, r: Regs<D>)
    returns (k: nat, r': Regs<D>)
    requires 6 <= len <= 64 && LenOk(t, before, target, len) && Straight(t, before, target, 0, len)
    requires IsPlanted(before, after, tr, TrampAbs(before, target, len), target, PatchAbs(detour, len))
    ensures Run(t, before, exec, k, Cpu(target, r)) == Go(Cpu(Add(target, len), r'))
    ensures Run(t, after, exec, k + 2, Cpu(tr, r))
            == Go(Cpu(Add(target, len), r'.(eax := Add(target, len))))
    ensures Run(t, after, exec, 2, Cpu(target, r))
            == Go(Cpu(detour, r.(stack := r.stack[Add(r.esp, -4) := detour])))
  {
    hide Run, Decode, Step, LenOk, Straight, IsPlanted, Reads, PeekN, PushRet, MovJmp, Nops;
    PlantedReads(before, after, tr, TrampAbs(before, target, len), target, PatchAbs(detour, len));
    k, r' := CopyRuns(t, before, after, target, len, tr, MovJmp(Add(target, len)), exec, r);
    MovJmpArrives(t, after, exec, Add(tr, len), Add(target, len), r');
    RunThen(t, after, exec, k, 2, Cpu(tr, r), Cpu(Add(tr, len), r'));
    ReadsPart(after, target, PushRet(detour), Nops(len - 6));
    PushRetArrives(t, after, exec, target, detour, r);
  }
}
