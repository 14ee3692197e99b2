/**
  The inventory of planted hooks: `TrackHook` saves the original bytes,
  `HookArmed` reads the planted jump back, `PlantHook` runs the whole sequence
  and `RemoveHooks` undoes it.

  Hook names are never null here; the callers pass string constants.
 */
module HookInventory {
  import opened OpcodeTable
  import opened Decoder
  import opened HookLength
  import opened CodeHooks
  import opened Machine

  const MAX_PLANTED: nat := 8
  const MAX_ORIG: nat := 8

  /** `planted_t`; the length is that of `orig`. */
  datatype Record = Record(name: string, target: Word, orig: seq<Byte>)

  /** Would `TrackHook` take it? */
  predicate Trackable(n: nat, target: Word, len: nat) {
    n < MAX_PLANTED && target != 0 && 0 < len <= MAX_ORIG
  }

  function Track(mem: Mem, planted: seq<Record>, name: string, target: Word, len: nat): seq<Record> {
    if Trackable(|planted|, target, len) then planted + [Record(name, target, PeekN(mem, target, 0, len))]
    else planted
  }

  /** The check `HookArmed` makes on the bytes at a recorded target. */
  predicate PointsTo(mem: Mem, t: Word, detour: Word) {
    if Peek(mem, t, 0) == 0xE9 then Add(Add(t, 5), Imm32At(mem, t)) == detour
    else Peek(mem, t, 0) == 0x68 && Peek(mem, t, 5) == 0xC3 && Imm32At(mem, t) == detour
  }

  /** The first record of that name decides. */
  predicate Armed(mem: Mem, planted: seq<Record>, name: string, detour: Word) {
    planted != [] &&
    if planted[0].name == name then PointsTo(mem, planted[0].target, detour)
    else Armed(mem, planted[1..], name, detour)
  }

  /** Memory after `RemoveHooks`; `ok[i]` says whether the i-th write succeeds. */
  function Restore(mem: Mem, planted: seq<Record>, ok: seq<bool>): Mem
    requires |ok| == |planted|
    decreases |planted|
  {
    if planted == [] then mem
    else
      var r := planted[0];
      Restore(if ok[0] && r.target != 0 && r.orig != [] then Poke(mem, r.target, r.orig) else mem,
              planted[1..], ok[1..])
  }

  // ------------------------------------------------------------------
  // The planting sequence as a state machine
  // ------------------------------------------------------------------

  datatype Ledger = Ledger(mem: Mem, mapped: set<Word>, planted: seq<Record>, tried: nat, ok: nat)

  /** One call of `PlantHook`: `addr` is 0 when the target was not verified. */
  datatype Plan = Plan(name: string, addr: Word, len: nat, detour: Word, slot: bool, os: Os)

  /** The target's bytes are mapped and `mmap` keeps its promise. */
  ghost predicate Feasible(mapped: set<Word>, plan: Plan) {
    && (plan.addr != 0 && plan.len <= 64 ==> Block(plan.addr, plan.len) <= mapped)
    && (plan.os.region.Region? && plan.len <= 64 ==> Block(plan.os.region.at, plan.len + 7) !! mapped)
  }

  /** Does this call get as far as tracking? */
  predicate Tries(t: Table, mem: Mem, plan: Plan) {
    plan.addr != 0 && LenOk(t, mem, plan.addr, plan.len)
  }

  /** Does this call write a jump? */
  predicate Plants(t: Table, w: Width, mem: Mem, plan: Plan) {
    Tries(t, mem, plan) && AutoSucceeds(w, plan.addr, plan.detour, plan.len, plan.slot, plan.os)
  }

  /** The bytes copied from the target, and the jump back behind them. */
  function TrampBytes(w: Width, mem: Mem, plan: Plan): seq<Byte>
    requires plan.os.region.Region?
  {
    PeekN(mem, plan.addr, 0, plan.len) + AutoBack(w, plan.addr, plan.detour, plan.len, plan.os.region.at)
  }

  /** The region the trampoline occupies. */
  function TrampBlock(w: Width, plan: Plan): set<Word>
    requires plan.os.region.Region?
  {
    Block(plan.os.region.at, plan.len + |AutoBack(w, plan.addr, plan.detour, plan.len, plan.os.region.at)|)
  }

  /** One call of `PlantHook`, as a relation. */
  ghost predicate PlantStep(t: Table, w: Width, s: Ledger, plan: Plan, s': Ledger) {
    && s'.planted == (if Tries(t, s.mem, plan) then Track(s.mem, s.planted, plan.name, plan.addr, plan.len)
                      else s.planted)
    && s'.tried == s.tried + (if plan.addr != 0 then 1 else 0)
    && s'.mapped == s.mapped + (if Plants(t, w, s.mem, plan) then TrampBlock(w, plan) else {})
    && s'.ok == s.ok + (if Plants(t, w, s.mem, plan) && Armed(s'.mem, s'.planted, plan.name, plan.detour) then 1 else 0)
    && (if Plants(t, w, s.mem, plan) then
          forall x :: s'.mem(x) == AutoPlanted(w, s.mem, plan.addr, plan.detour, plan.len, plan.os.region.at)(x)
        else forall x | x in s.mapped :: s'.mem(x) == s.mem(x))
  }

  // ------------------------------------------------------------------
  // The inventory
  // ------------------------------------------------------------------

  class Inventory {
    const p: Process
    var planted: seq<Record>
    var hookTry: nat
    var hookOk: nat

    constructor (p: Process)
      ensures this.p == p && planted == [] && hookTry == 0 && hookOk == 0
    {
      this.p, planted, hookTry, hookOk := p, [], 0, 0;
    }

    method TrackHook(name: string, target: Word, len: nat)
      modifies `planted
      ensures planted == Track(p.mem, old(planted), name, target, len)
    {
      if |planted| >= MAX_PLANTED || target == 0 || len == 0 || len > 8 {
        return;
      }
      planted := planted + [Record(name, target, PeekN(p.mem, target, 0, len))];
    }

    method HookArmed(name: string, detour: Word) returns (armed: bool)
      ensures armed == Armed(p.mem, planted, name, detour)
    {
      var i := 0;
      while i < |planted|
        invariant i <= |planted|
        invariant Armed(p.mem, planted, name, detour) == Armed(p.mem, planted[i..], name, detour)
      {
        if planted[i].name == name {
          var t := planted[i].target;
          if Peek(p.mem, t, 0) == 0xE9 {
            return Add(Add(t, 5), FromLe32(PeekN(p.mem, t, 1, 4))) == detour;
          }
          if Peek(p.mem, t, 0) == 0x68 && Peek(p.mem, t, 5) == 0xC3 {
            return FromLe32(PeekN(p.mem, t, 1, 4)) == detour;
          }
          return false;
        }
        i := i + 1;
      }
      armed := false;
    }

    method RemoveHooks(ok: seq<bool>)
      requires |ok| == |planted| && forall i | 0 <= i < |planted| :: |planted[i].orig| <= 256
      modifies p`mem
      ensures p.mem == Restore(old(p.mem), planted, ok)
    {
      var i := 0;
      while i < |planted|
        invariant i <= |planted|
        invariant Restore(p.mem, planted[i..], ok[i..]) == Restore(old(p.mem), planted, ok)
      {
        var rc := p.PatchBytes(planted[i].target, planted[i].orig, ok[i]);
        assert planted[i..][1..] == planted[i + 1..] && ok[i..][1..] == ok[i + 1..];
        i := i + 1;
      }
    }

    /** `PlantHook`, log lines left out. */
    method PlantHook(plan: Plan, out: Cell?)
      requires Feasible(p.mapped, plan) && plan.slot == (out != null)
      modifies `planted, `hookTry, `hookOk, p`mem, p`mapped, out
      ensures PlantStep(p.table, p.width, old(Value()), plan, Value())
    {
      hide LenOk, AutoPlanted, AutoSucceeds, Armed, AutoBack, PeekN, Block, Trackable, Track;
      if plan.addr == 0 {
        return;
      }
      hookTry := hookTry + 1;
      var lenOk := HookLenOk(p.table, p.mem, plan.addr, plan.len);
      if !lenOk {
        return;
      }
      TrackHook(plan.name, plan.addr, plan.len);
      var rc := p.HookAuto(plan.addr, plan.detour, plan.len, out, plan.os);
      if rc == 0 {
        var armed := HookArmed(plan.name, plan.detour);
        if armed {
          hookOk := hookOk + 1;
        }
      }
    }

    ghost function Value(): Ledger
      reads this, p
    {
      Ledger(p.mem, p.mapped, planted, hookTry, hookOk)
    }
  }

  // ------------------------------------------------------------------
  // Read-back
  // ------------------------------------------------------------------

  lemma Le32Unique(b: seq<Byte>)
    requires |b| == 4
    ensures Le32(FromLe32(b)) == b
  {
    var b0: int, b1: int, b2: int, b3: int := b[0], b[1], b[2], b[3];
    LowByte(b2, b3);
    LowByte(b1, b2 + 256 * b3);
    LowByte(b0, b1 + 256 * (b2 + 256 * b3));
  }

  lemma LowByte(low: int, high: int)
    requires 0 <= low < 256
    ensures (low + 256 * high) % 256 == low && (low + 256 * high) / 256 == high
  {
  }

  /** The bytes of an instruction with a 32-bit operand. */
  lemma OperandReads(mem: Mem, t: Word, op: Byte, w: Word)
    ensures Reads(mem, t, [op] + Le32(w)) <==> Peek(mem, t, 0) == op && Imm32At(mem, t) == w
  {
    var all := [op] + Le32(w);
    if Reads(mem, t, all) {
      assert all + [] == all;
      ReadsImm32(mem, t, op, w, []);
    }
    if Peek(mem, t, 0) == op && Imm32At(mem, t) == w {
      Le32Unique(PeekN(mem, t, 1, 4));
      forall i: nat | i < 5 ensures Peek(mem, t, i) == all[i] {
        if i > 0 { assert PeekN(mem, t, 1, 4)[i - 1] == Le32(w)[i - 1]; }
      }
    }
  }

  lemma PushRetReads(mem: Mem, t: Word, w: Word)
    ensures Reads(mem, t, PushRet(w)) <==> Reads(mem, t, [0x68] + Le32(w)) && Peek(mem, t, 5) == 0xC3
  {
    var a := [0x68] + Le32(w);
    if Reads(mem, t, PushRet(w)) {
      ReadsPart(mem, t, a, [0xC3]);
      assert PushRet(w)[5] == 0xC3;
    }
    if Reads(mem, t, a) && Peek(mem, t, 5) == 0xC3 {
      forall i: nat | i < 6 ensures Peek(mem, t, i) == PushRet(w)[i] {
        if i < 5 { assert PushRet(w)[i] == a[i]; }
      }
    }
  }

  /** The read-back accepts exactly the bytes of the two kinds of planted jump. */
  lemma ReadBackIsExact(mem: Mem, t: Word, detour: Word)
    ensures PointsTo(mem, t, detour) <==>
            Reads(mem, t, JmpRel(t, detour)) || Reads(mem, t, PushRet(detour))
  {
    hide Le32, FromLe32;
    var rel := Diff(detour, Add(t, 5));
    OperandReads(mem, t, 0xE9, rel);
    OperandReads(mem, t, 0x68, detour);
    PushRetReads(mem, t, detour);
    AddDiff(detour, Add(t, 5));
    DiffOfAdd(Add(t, 5), Imm32At(mem, t), detour);
  }

  lemma DiffOfAdd(a: Word, d: Word, to: Word)
    ensures Add(a, d) == to <==> d == Diff(to, a)
  {
    AddDiff(to, a);
    DiffAdd(a, d);
  }

  lemma {:induction false} ArmedLast(mem: Mem, planted: seq<Record>, r: Record, detour: Word)
    requires forall i | 0 <= i < |planted| :: planted[i].name != r.name
    ensures Armed(mem, planted + [r], r.name, detour) == PointsTo(mem, r.target, detour)
    ensures !Armed(mem, planted, r.name, detour)
  {
    if planted == [] {
      assert planted + [r] == [r];
    } else {
      assert (planted + [r])[1..] == planted[1..] + [r];
      ArmedLast(mem, planted[1..], r, detour);
    }
  }

  lemma PatchPointsTo(w: Width, before: Mem, after: Mem, plan: Plan, tr: Word)
    requires UsesRel(w, plan.addr, plan.detour, plan.len) || plan.len >= 6
    requires plan.len <= 64
    requires Block(tr, plan.len + 7) !! Block(plan.addr, plan.len)
    requires forall x :: after(x) == AutoPlanted(w, before, plan.addr, plan.detour, plan.len, tr)(x)
    ensures PointsTo(after, plan.addr, plan.detour)
  {
    var back := AutoBack(w, plan.addr, plan.detour, plan.len, tr);
    var tramp := PeekN(before, plan.addr, 0, plan.len) + back;
    var patch := AutoPatch(w, plan.addr, plan.detour, plan.len);
    assert Block(tr, |tramp|) <= Block(tr, plan.len + 7);
    PlantedReads(before, after, tr, tramp, plan.addr, patch);
    if UsesRel(w, plan.addr, plan.detour, plan.len) {
      ReadsPart(after, plan.addr, JmpRel(plan.addr, plan.detour), Nops(plan.len - 5));
    } else {
      ReadsPart(after, plan.addr, PushRet(plan.detour), Nops(plan.len - 6));
    }
    ReadBackIsExact(after, plan.addr, plan.detour);
  }

  /** A hook that was really planted is confirmed exactly when it was tracked: so
      never when its prefix is longer than eight bytes. */
  lemma ConfirmedIffTracked(t: Table, w: Width, s: Ledger, plan: Plan, s': Ledger)
    requires PlantStep(t, w, s, plan, s') && Feasible(s.mapped, plan) && Plants(t, w, s.mem, plan)
    requires forall i | 0 <= i < |s.planted| :: s.planted[i].name != plan.name
    ensures PointsTo(s'.mem, plan.addr, plan.detour)
    ensures s'.ok == s.ok + (if Trackable(|s.planted|, plan.addr, plan.len) then 1 else 0)
  {
    hide LenOk, AutoPlanted, PointsTo;
    PatchPointsTo(w, s.mem, s'.mem, plan, plan.os.region.at);
    ArmedLast(s'.mem, s.planted, Record(plan.name, plan.addr, PeekN(s.mem, plan.addr, 0, plan.len)), plan.detour);
  }

  /** On the 32-bit build: a planted hook sends callers of the target to the detour,
      and its trampoline is the original function, from the first instruction on. */
  lemma PlantedHookPreserves<D>(t: Table, s: Ledger, plan: Plan, s': Ledger, exec: Exec<D>, r: Regs<D>)
    returns (k: nat, r': Regs<D>)
    requires PlantStep(t, W32, s, plan, s') && Feasible(s.mapped, plan) && Plants(t, W32, s.mem, plan)
    requires Straight(t, s.mem, plan.addr, 0, plan.len)
    ensures var back, tr := Add(plan.addr, plan.len), plan.os.region.at;
            && Run(t, s.mem, exec, k, Cpu(plan.addr, r)) == Go(Cpu(back, r'))
            && Run(t, s'.mem, exec, k + 1, Cpu(tr, r)) == Go(Cpu(back, r'))
            && Run(t, s'.mem, exec, 1, Cpu(plan.addr, r)) == Go(Cpu(plan.detour, r))
  {
    hide Run, Straight, Tiles, Armed, Poke;
    var tr := plan.os.region.at;
    RelAlwaysReaches32(plan.addr, plan.detour);
    assert Block(tr, plan.len + 5) <= Block(tr, plan.len + 7);
    k, r' := RelativeHookPreserves(t, s.mem, s'.mem, plan.addr, plan.detour, plan.len, tr, exec, r);
  }
}
