/**
  `HookLenOk`: a prefix may be hooked when it ends exactly on an instruction
  boundary.
 */
module HookLength {
  import opened OpcodeTable
  import opened Decoder
  import opened DecoderTheory

  function Add(a: Word, i: int): Word {
    (a + i) % 0x1_0000_0000
  }

  lemma AddAdd(a: Word, i: int, j: int)
    ensures Add(Add(a, i), j) == Add(a, i + j)
  {
  }

  lemma PeekAdd(mem: Mem, at: Word, i: nat, j: nat)
    ensures Peek(mem, Add(at, i), j) == Peek(mem, at, i + j)
  {
    AddAdd(at, i, j);
  }

  lemma LengthPositive(t: Table, mem: Mem, at: Word)
    ensures 1 <= Decode(t, mem, at).len <= 15
    ensures Decode(t, mem, at).faults.length ==> Decode(t, mem, at).faults.error
  {
    LengthIsAccounted(t, mem, at);
  }

  /** The decode loop from offset `n`. */
  predicate Tiles(t: Table, mem: Mem, at: Word, n: nat, want: nat)
    decreases want - n
  {
    if n >= want then n == want
    else
      var i := Decode(t, mem, Add(at, n));
      i.len > 0 && !i.faults.error && Tiles(t, mem, at, n + i.len, want)
  }

  predicate LenOk(t: Table, mem: Mem, at: Word, want: nat) {
    at != 0 && 1 <= want <= 64 && Tiles(t, mem, at, 0, want)
  }

  method HookLenOk(t: Table, mem: Mem, addr: Word, want: nat) returns (ok: bool)
    ensures ok == LenOk(t, mem, addr, want)
  {
    hide Decode;
    if addr == 0 || want == 0 || want > 64 {
      return false;
    }
    var n := 0;
    while n < want
      invariant Tiles(t, mem, addr, n, want) == Tiles(t, mem, addr, 0, want)
      decreases want - n
    {
      var hs := Disasm(t, mem, Add(addr, n));
      if hs.len == 0 || hs.faults.error {
        return false;
      }
      n := n + hs.len;
    }
    ok := n == want;
  }

  // ------------------------------------------------------------------
  // The accepted lengths are the instruction boundaries
  // ------------------------------------------------------------------

  datatype Boundary = Off(n: nat) | Broken

  /** Where the k-th instruction from `at` ends, if all before it decode. */
  function After(t: Table, mem: Mem, at: Word, k: nat): Boundary {
    if k == 0 then Off(0)
    else
      match After(t, mem, at, k - 1)
      case Broken => Broken
      case Off(n) =>
        var i := Decode(t, mem, Add(at, n));
        if i.faults.error then Broken else Off(n + i.len)
  }

  lemma {:induction false} TilesReach(t: Table, mem: Mem, at: Word, k: nat, n: nat, want: nat) returns (j: nat)
    requires After(t, mem, at, k) == Off(n) && Tiles(t, mem, at, n, want)
    ensures After(t, mem, at, j) == Off(want)
    decreases want - n
  {
    hide Decode;
    if n >= want {
      j := k;
    } else {
      var i := Decode(t, mem, Add(at, n));
      assert After(t, mem, at, k + 1) == Off(n + i.len);
      j := TilesReach(t, mem, at, k + 1, n + i.len, want);
    }
  }

  lemma {:induction false} ReachTiles(t: Table, mem: Mem, at: Word, k: nat, n: nat, want: nat)
    requires After(t, mem, at, k) == Off(n) && n <= want && Tiles(t, mem, at, n, want)
    ensures Tiles(t, mem, at, 0, want)
    decreases k
  {
    hide Decode;
    if k > 0 {
      var m := After(t, mem, at, k - 1).n;
      LengthPositive(t, mem, Add(at, m));
      ReachTiles(t, mem, at, k - 1, m, want);
    }
  }

  /** A length is accepted exactly when it is where some instruction of the
      error-free decode sequence ends. */
  lemma {:induction false} AcceptedIsBoundary(t: Table, mem: Mem, at: Word, want: nat)
    ensures LenOk(t, mem, at, want) <==>
            at != 0 && 1 <= want <= 64 && exists k: nat :: After(t, mem, at, k) == Off(want)
  {
    hide Decode;
    if LenOk(t, mem, at, want) {
      var k := TilesReach(t, mem, at, 0, 0, want);
    }
    if k: nat :| After(t, mem, at, k) == Off(want) {
      ReachTiles(t, mem, at, k, want, want);
    }
  }

  /** Tiling shifts with its origin. */
  lemma {:induction false} TilesShift(t: Table, mem: Mem, at: Word, a: nat, n: nat, b: nat)
    requires n <= b
    ensures Tiles(t, mem, at, a + n, a + b) == Tiles(t, mem, Add(at, a), n, b)
    decreases b - n
  {
    hide Decode;
    if n < b {
      AddAdd(at, a, n);
      var i := Decode(t, mem, Add(at, a + n));
      if i.len > 0 && !i.faults.error && n + i.len <= b {
        TilesShift(t, mem, at, a, n + i.len, b);
      }
    }
  }

  lemma {:induction false} TilesSplit(t: Table, mem: Mem, at: Word, n: nat, a: nat, c: nat)
    requires n <= a <= c && Tiles(t, mem, at, n, a)
    ensures Tiles(t, mem, at, n, c) == Tiles(t, mem, at, a, c)
    decreases a - n
  {
    hide Decode;
    if n < a {
      TilesSplit(t, mem, at, n + Decode(t, mem, Add(at, n)).len, a, c);
    }
  }

  /** Boundaries compose: after an accepted `a`, `a + b` is accepted exactly when
      `b` is accepted from there. */
  lemma BoundariesCompose(t: Table, mem: Mem, at: Word, a: nat, b: nat)
    requires LenOk(t, mem, at, a) && 1 <= b && a + b <= 64 && Add(at, a) != 0
    ensures LenOk(t, mem, at, a + b) <==> LenOk(t, mem, Add(at, a), b)
  {
    hide Decode;
    TilesSplit(t, mem, at, 0, a, a + b);
    TilesShift(t, mem, at, a, 0, b);
  }

  // ------------------------------------------------------------------
  // Acceptance depends on the prefix only
  // ------------------------------------------------------------------

  /** Two places agree on the bytes from offset `n` to offset `m`. */
  lemma SameShifted(m1: Mem, a1: Word, m2: Mem, a2: Word, n: nat, len: nat, all: nat)
    requires Same(m1, a1, m2, a2, all) && n + len <= all
    ensures Same(m1, Add(a1, n), m2, Add(a2, n), len)
  {
    forall i: nat | i < len ensures Peek(m1, Add(a1, n), i) == Peek(m2, Add(a2, n), i) {
      PeekAdd(m1, a1, n, i);
      PeekAdd(m2, a2, n, i);
    }
  }

  lemma {:induction false} TilesBound(t: Table, mem: Mem, at: Word, n: nat, want: nat)
    requires Tiles(t, mem, at, n, want)
    ensures n <= want
    ensures n < want ==> n + Decode(t, mem, Add(at, n)).len <= want
    decreases want - n
  {
    hide Decode;
    if n < want {
      TilesBound(t, mem, at, n + Decode(t, mem, Add(at, n)).len, want);
    }
  }

  /** One instruction of an accepted prefix decodes the same in a copy of it. */
  lemma {:induction false} CopyDecodes(t: Table, m1: Mem, a1: Word, m2: Mem, a2: Word, n: nat, want: nat)
    requires n < want && Tiles(t, m1, a1, n, want) && Same(m1, a1, m2, a2, want)
    ensures Decode(t, m2, Add(a2, n)) == Decode(t, m1, Add(a1, n))
  {
    hide Decode;
    var len := Decode(t, m1, Add(a1, n)).len;
    TilesBound(t, m1, a1, n, want);
    SameShifted(m1, a1, m2, a2, n, len, want);
    LengthPositive(t, m1, Add(a1, n));
    DecodeIsLocal(t, m1, Add(a1, n), m2, Add(a2, n));
  }

  /** An accepted prefix is accepted wherever it is copied, whatever follows. */
  lemma {:induction false} CopyTiles(t: Table, m1: Mem, a1: Word, m2: Mem, a2: Word, n: nat, want: nat)
    requires Tiles(t, m1, a1, n, want) && Same(m1, a1, m2, a2, want)
    ensures Tiles(t, m2, a2, n, want)
    decreases want - n
  {
    hide Decode;
    if n < want {
      CopyDecodes(t, m1, a1, m2, a2, n, want);
      CopyTiles(t, m1, a1, m2, a2, n + Decode(t, m1, Add(a1, n)).len, want);
    }
  }
}
