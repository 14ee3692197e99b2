/**
  Writing code: `PatchBytes`, the two hook planters `HookJumpN` and `HookJumpAbs`
  and the choice between them, `HookAuto`.

  What the kernel answers is a parameter: whether `mprotect` succeeds, and where
  `mmap` puts a new region (or that it fails).  A new region is disjoint from
  everything mapped before.
 */
module CodeHooks {
  import opened OpcodeTable
  import opened Decoder
  import opened DecoderTheory
  import opened HookLength

  const M32: int := 0x1_0000_0000

  // ------------------------------------------------------------------
  // Memory
  // ------------------------------------------------------------------

  /** How far `x` lies after `base`, around the address space. */
  function Diff(x: Word, base: Word): Word {
    (x - base) % M32
  }

  /** `memcpy(at, bytes, |bytes|)`. */
  function Poke(mem: Mem, at: Word, bytes: seq<Byte>): Mem {
    (x: Word) => if Diff(x, at) < |bytes| then bytes[Diff(x, at)] else mem(x)
  }

  lemma DiffAdd(at: Word, i: nat)
    requires i < M32
    ensures Diff(Add(at, i), at) == i
  {
  }

  lemma AddDiff(x: Word, at: Word)
    ensures Add(at, Diff(x, at)) == x
  {
  }

  lemma DiffShift(x: Word, at: Word, n: nat)
    requires n < M32
    ensures Diff(x, Add(at, n)) == (if Diff(x, at) >= n then Diff(x, at) - n else Diff(x, at) - n + M32)
  {
    AddDiff(x, at);
  }

  /** Two adjacent writes are one write of the concatenation. */
  lemma PokeAdjacent(mem: Mem, at: Word, a: seq<Byte>, b: seq<Byte>, x: Word)
    requires |a| + |b| <= 256
    ensures Poke(Poke(mem, at, a), Add(at, |a|), b)(x) == Poke(mem, at, a + b)(x)
  {
    DiffShift(x, at, |a|);
  }

  /** The addresses of a block. */
  function Block(at: Word, n: nat): set<Word> {
    set i: nat | i < n :: Add(at, i)
  }

  lemma InBlock(x: Word, at: Word, n: nat)
    requires n <= 256
    ensures x in Block(at, n) <==> Diff(x, at) < n
  {
    if Diff(x, at) < n {
      AddDiff(x, at);
    }
    if x in Block(at, n) {
      var i: nat :| i < n && x == Add(at, i);
      DiffAdd(at, i);
    }
  }

  // ------------------------------------------------------------------
  // Machine code
  // ------------------------------------------------------------------

  function Le32(w: Word): (r: seq<Byte>)
    ensures |r| == 4
  {
    [w % 256, w / 256 % 256, w / 256 / 256 % 256, w / 256 / 256 / 256]
  }

  function FromLe32(b: seq<Byte>): Word
    requires |b| == 4
  {
    var b0: int, b1: int, b2: int, b3: int := b[0], b[1], b[2], b[3];
    b0 + 256 * (b1 + 256 * (b2 + 256 * b3))
  }

  lemma Le32RoundTrip(w: Word)
    ensures FromLe32(Le32(w)) == w
  {
  }

  /** `jmp rel32` at `at`. */
  function JmpRel(at: Word, to: Word): (r: seq<Byte>)
    ensures |r| == 5
  {
    [0xE9] + Le32(Diff(to, Add(at, 5)))
  }

  /** `push imm32; ret`. */
  function PushRet(to: Word): (r: seq<Byte>)
    ensures |r| == 6
  {
    [0x68] + Le32(to) + [0xC3]
  }

  /** `mov eax, imm32; jmp eax`. */
  function MovJmp(to: Word): (r: seq<Byte>)
    ensures |r| == 7
  {
    [0xB8] + Le32(to) + [0xFF, 0xE0]
  }

  function Nops(n: nat): (r: seq<Byte>)
    ensures |r| == n
  {
    seq<Byte>(n, i => 0x90)
  }

  /** The bytes the two planters put in the trampoline and at the target. */
  function TrampRel(mem: Mem, target: Word, len: nat, tr: Word): seq<Byte> {
    PeekN(mem, target, 0, len) + JmpRel(Add(tr, len), Add(target, len))
  }

  function TrampAbs(mem: Mem, target: Word, len: nat): seq<Byte> {
    PeekN(mem, target, 0, len) + MovJmp(Add(target, len))
  }

  function PatchRel(target: Word, detour: Word, len: nat): seq<Byte>
    requires len >= 5
  {
    JmpRel(target, detour) + Nops(len - 5)
  }

  function PatchAbs(detour: Word, len: nat): seq<Byte>
    requires len >= 6
  {
    PushRet(detour) + Nops(len - 6)
  }

  /** Memory after a planted hook. */
  function Planted(mem: Mem, tr: Word, tramp: seq<Byte>, target: Word, patch: seq<Byte>): Mem {
    Poke(Poke(mem, tr, tramp), target, patch)
  }

  datatype Region = NoRegion | Region(at: Word)

  /** The kernel's answers during one call. */
  datatype Os = Os(region: Region, writable: bool)

  /** `void **out_tramp`. */
  class Cell {
    var value: Word

    constructor ()
      ensures value == 0
    {
      value := 0;
    }
  }

  /** Widths of `intptr_t`. */
  datatype Width = W32 | W64

  /** `(intptr_t)(to - from)`. */
  function PtrDiff(w: Width, to: Word, from: Word): int {
    if w.W64? then to - from else ToInt32(Diff(to, from))
  }

  /** `(int32_t)x` for the low 32 bits of `x`. */
  function ToInt32(x: int): int {
    var u := x % M32;
    if u < 0x8000_0000 then u else u - M32
  }

  predicate RelReaches(w: Width, target: Word, detour: Word) {
    var rel := PtrDiff(w, detour, Add(target, 5));
    rel == ToInt32(rel)
  }

  /** On the 32-bit build a relative jump reaches everything. */
  lemma RelAlwaysReaches32(target: Word, detour: Word)
    ensures RelReaches(W32, target, detour)
  {
  }

  predicate UsesRel(w: Width, target: Word, detour: Word, len: nat) {
    len >= 5 && RelReaches(w, target, detour)
  }

  predicate AutoSucceeds(w: Width, target: Word, detour: Word, len: nat, out: bool, os: Os) {
    && target != 0 && detour != 0 && out && len <= 64 && os.region.Region? && os.writable
    && (UsesRel(w, target, detour, len) || len >= 6)
  }

  /** The jump back at the end of the trampoline. */
  function AutoBack(w: Width, target: Word, detour: Word, len: nat, tr: Word): seq<Byte> {
    if UsesRel(w, target, detour, len) then JmpRel(Add(tr, len), Add(target, len)) else MovJmp(Add(target, len))
  }

  function AutoPatch(w: Width, target: Word, detour: Word, len: nat): (r: seq<Byte>)
    requires UsesRel(w, target, detour, len) || len >= 6
    ensures |r| == len
  {
    if UsesRel(w, target, detour, len) then PatchRel(target, detour, len) else PatchAbs(detour, len)
  }

  function AutoPlanted(w: Width, mem: Mem, target: Word, detour: Word, len: nat, tr: Word): Mem
    requires UsesRel(w, target, detour, len) || len >= 6
  {
    Planted(mem, tr, PeekN(mem, target, 0, len) + AutoBack(w, target, detour, len, tr),
            target, AutoPatch(w, target, detour, len))
  }

  class Process {
    const table: Table
    const width: Width
    var mem: Mem
    ghost var mapped: set<Word>

    constructor (table: Table, width: Width, mem: Mem, ghost mapped: set<Word>)
      ensures this.table == table && this.width == width && this.mem == mem && this.mapped == mapped
    {
      this.table, this.width, this.mem, this.mapped := table, width, mem, mapped;
    }

    /** Everything that was mapped before reads as it did. */
    twostate predicate MappedUntouched()
      reads this
    {
      mapped == old(mapped) && forall x | x in old(mapped) :: mem(x) == old(mem)(x)
    }

    method PatchBytes(dst: Word, src: seq<Byte>, writable: bool) returns (rc: int)
      requires |src| <= 256
      modifies `mem
      ensures rc == 0 <==> dst != 0 && src != [] && writable
      ensures rc == 0 || rc == -1
      ensures rc == 0 ==> mem == Poke(old(mem), dst, src)
      ensures rc != 0 ==> mem == old(mem)
    {
      if dst == 0 || src == [] {
        return -1;
      }
      if !writable {
        return -1;
      }
      mem := Poke(mem, dst, src);
      rc := 0;
    }

    /** Build a trampoline in a fresh region: the prefix, then `back`. */
    method BuildTramp(target: Word, len: nat, tr: Word, back: seq<Byte>)
      requires len <= 64 && |back| <= 7
      requires Block(tr, len + |back|) !! mapped
      modifies `mem
      ensures forall x :: mem(x) == Poke(old(mem), tr, PeekN(old(mem), target, 0, len) + back)(x)
    {
      var prefix := PeekN(mem, target, 0, len);
      mem := Poke(mem, tr, prefix);
      mem := Poke(mem, Add(tr, len), back);
      forall x ensures mem(x) == Poke(old(mem), tr, prefix + back)(x) {
        PokeAdjacent(old(mem), tr, prefix, back, x);
      }
    }

    method HookJumpN(target: Word, detour: Word, len: nat, out: Cell?, os: Os) returns (rc: int)
      requires target != 0 && 5 <= len <= 64 ==> Block(target, len) <= mapped
      requires os.region.Region? && len <= 64 ==> Block(os.region.at, len + 5) !! mapped
      modifies `mem, `mapped, out
      ensures rc == 0 || rc == -1
      ensures rc == 0 <==> target != 0 && detour != 0 && out != null && 5 <= len <= 64
                           && os.region.Region? && os.writable
      ensures rc != 0 ==> MappedUntouched() && (out != null ==> out.value == old(out.value))
      ensures rc == 0 ==>
                && mapped == old(mapped) + Block(os.region.at, len + 5) && out.value == os.region.at
                && forall x :: mem(x) == Planted(old(mem), os.region.at, TrampRel(old(mem), target, len, os.region.at),
                                                 target, PatchRel(target, detour, len))(x)
    {
      if target == 0 || detour == 0 || out == null || len < 5 || len > 64 {
        return -1;
      }
      if os.region == NoRegion {
        return -1;
      }
      var tr := os.region.at;
      BuildTramp(target, len, tr, JmpRel(Add(tr, len), Add(target, len)));
      var buf := JmpRel(target, detour) + Nops(len - 5);
      label built:
      rc := PatchBytes(target, buf, os.writable);
      if rc != 0 {
        UntouchedOutside(old(mem), mem, tr, TrampRel(old(mem), target, len, tr));
        return -1;
      }
      out.value := tr;
      mapped := mapped + Block(tr, len + 5);
      rc := 0;
    }

    method HookJumpAbs(target: Word, detour: Word, len: nat, out: Cell?, os: Os) returns (rc: int)
      requires target != 0 && 6 <= len <= 64 ==> Block(target, len) <= mapped
      requires os.region.Region? && len <= 64 ==> Block(os.region.at, len + 7) !! mapped
      modifies `mem, `mapped, out
      ensures rc == 0 || rc == -1
      ensures rc == 0 <==> target != 0 && detour != 0 && out != null && 6 <= len <= 64
                           && os.region.Region? && os.writable
      ensures rc != 0 ==> MappedUntouched() && (out != null ==> out.value == old(out.value))
      ensures rc == 0 ==>
                && mapped == old(mapped) + Block(os.region.at, len + 7) && out.value == os.region.at
                && forall x :: mem(x) == Planted(old(mem), os.region.at, TrampAbs(old(mem), target, len),
                                                 target, PatchAbs(detour, len))(x)
    {
      if target == 0 || detour == 0 || out == null || len < 6 || len > 64 {
        return -1;
      }
      if os.region == NoRegion {
        return -1;
      }
      var tr := os.region.at;
      BuildTramp(target, len, tr, MovJmp(Add(target, len)));
      var buf := PushRet(detour) + Nops(len - 6);
      rc := PatchBytes(target, buf, os.writable);
      if rc != 0 {
        UntouchedOutside(old(mem), mem, tr, TrampAbs(old(mem), target, len));
        return -1;
      }
      out.value := tr;
      mapped := mapped + Block(tr, len + 7);
      rc := 0;
    }

    lemma UntouchedOutside(before: Mem, after: Mem, tr: Word, tramp: seq<Byte>)
      requires |tramp| <= 256 && Block(tr, |tramp|) !! mapped
      requires forall x :: after(x) == Poke(before, tr, tramp)(x)
      ensures forall x | x in mapped :: after(x) == before(x)
    {
      forall x | x in mapped ensures after(x) == before(x) {
        InBlock(x, tr, |tramp|);
      }
    }

    /** `HookAuto`: the relative form when it reaches, else the absolute one. */
    method HookAuto(target: Word, detour: Word, len: nat, out: Cell?, os: Os) returns (rc: int)
      requires target != 0 && 5 <= len <= 64 ==> Block(target, len) <= mapped
      requires os.region.Region? && len <= 64 ==> Block(os.region.at, len + 7) !! mapped
      modifies `mem, `mapped, out
      ensures rc == 0 || rc == -1
      ensures rc == 0 <==> AutoSucceeds(width, target, detour, len, out != null, os)
      ensures rc != 0 ==> MappedUntouched() && (out != null ==> out.value == old(out.value))
      ensures rc == 0 ==>
                && out.value == os.region.at
                && mapped == old(mapped)
                             + Block(os.region.at, len + |AutoBack(width, target, detour, len, os.region.at)|)
                && forall x :: mem(x) == AutoPlanted(width, old(mem), target, detour, len, os.region.at)(x)
    {
      if target == 0 || detour == 0 || out == null || len == 0 || len > 64 {
        return -1;
      }
      if len >= 5 && RelReaches(width, target, detour) {
        BlockGrows(os.region, len, 5, 7);
        rc := HookJumpN(target, detour, len, out, os);
        return;
      }
      if len >= 6 {
        rc := HookJumpAbs(target, detour, len, out, os);
        return;
      }
      rc := -1;
    }

    lemma BlockGrows(r: Region, len: nat, a: nat, b: nat)
      requires a <= b
      ensures r.Region? ==> Block(r.at, len + a) <= Block(r.at, len + b)
    {
    }
  }
}
