/**
  The hooks of start-up: the recorded prologues meet every condition under which a
  hook works, and one that is longer than a record outlives its removal.
 */
module Startup {
  import opened OpcodeTable
  import opened Decoder
  import opened DecoderTheory
  import opened HookLength
  import opened CodeHooks
  import opened Machine
  import opened HookInventory
  import opened HookRuns
  import opened Prologues

  /** One of the recorded prologues, with its recorded prefix length. */
  ghost predicate IsPrologue(mem: Mem, at: Word, len: nat) {
    || (len == 6 && Reads(mem, at, [0x55, 0x8B, 0xEC, 0x83, 0xEC]))
    || (len == 9 && Reads(mem, at, [0x55, 0x8B, 0xEC, 0x81, 0xEC]))
    || (len == 9 && Reads(mem, at, [0x57, 0x56, 0x53, 0x8B, 0x15]))
  }

  lemma {:induction false} PrologueIsStraight(t: Table, mem: Mem, at: Word, len: nat)
    requires PrologueRowsOk(t) && at != 0 && IsPrologue(mem, at, len)
    ensures LenOk(t, mem, at, len) && Straight(t, mem, at, 0, len)
  {
    hide LenOk, Straight, PrologueRowsOk, Reads;
    if len == 6 {
      SmallFrame(t, mem, at);
    } else if Reads(mem, at, [0x55, 0x8B, 0xEC, 0x81, 0xEC]) {
      LargeFrame(t, mem, at);
    } else {
      ClassLookup(t, mem, at);
    }
  }

  /** Whatever else start-up plants: a hook on a recorded prologue sends its callers
      to its detour, and its trampoline still is the original function. */
  lemma PrologueHookWorks<D>(t: Table, states: seq<Ledger>, plans: seq<Plan>, i: nat, exec: Exec<D>, r: Regs<D>)
    returns (k: nat, r': Regs<D>)
    requires PrologueRowsOk(t)
    requires PlantRun(t, W32, states, plans) && states[0].planted == [] && Apart(states[0].mapped, plans)
    requires i < |plans| && Wrote(t, W32, states, plans, i)
    requires IsPrologue(states[0].mem, plans[i].addr, plans[i].len)
    ensures var code, plan := states[|plans|].mem, plans[i];
            var back, tr := Add(plan.addr, plan.len), plan.os.region.at;
            && Run(t, states[0].mem, exec, k, Cpu(plan.addr, r)) == Go(Cpu(back, r'))
            && Run(t, code, exec, k + 1, Cpu(tr, r)) == Go(Cpu(back, r'))
            && Run(t, code, exec, 1, Cpu(plan.addr, r)) == Go(Cpu(plan.detour, r))
  {
    hide Run, Straight, IsPrologue, PrologueRowsOk, LenOk, PlantStep, Feasible, Apart;
    PrologueIsStraight(t, states[0].mem, plans[i].addr, plans[i].len);
    k, r' := EveryHookWorks(t, states, plans, i, exec, r);
  }

  /** The state after a call that plants, with no record kept. */
  function Hooked(s: Ledger, plan: Plan): Ledger
    requires CanPatch(W32, plan)
  {
    Ledger(AutoPlanted(W32, s.mem, plan.addr, plan.detour, plan.len, plan.os.region.at),
           s.mapped + TrampBlock(W32, plan), s.planted, s.tried + 1, s.ok)
  }

  /** A hook of nine bytes on the recorded prologue is planted, is not reported armed
      and stays when the hooks are removed: callers of the target still meet the jump. */
  lemma LongHookStays(t: Table, mem: Mem, mapped: set<Word>, plan: Plan)
    requires PrologueRowsOk(t) && Reads(mem, plan.addr, [0x55, 0x8B, 0xEC, 0x81, 0xEC])
    requires Feasible(mapped, plan) && plan.addr != 0 && plan.detour != 0 && plan.len == 9
    requires plan.slot && plan.os.region.Region? && plan.os.writable
    ensures CanPatch(W32, plan)
    ensures var s0 := Ledger(mem, mapped, [], 0, 0); var states := [s0, Hooked(s0, plan)];
            && PlantRun(t, W32, states, [plan]) && Wrote(t, W32, states, [plan], 0) && states[1].ok == 0
            && Peek(Undone(states), plan.addr, 0) == 0xE9 && Peek(mem, plan.addr, 0) == 0x55
  {
    hide LenOk, PrologueRowsOk, Straight, Armed, Block, AutoBack, JmpRel, Nops;
    var s0 := Ledger(mem, mapped, [], 0, 0);
    RelAlwaysReaches32(plan.addr, plan.detour);
    LargeFrame(t, mem, plan.addr);
    var s1 := Hooked(s0, plan);
    NothingArmed(s1.mem, plan);
    assert PlantStep(t, W32, s0, plan, s1);
    var states := [s0, s1];
    assert Undone(states) == s1.mem;
    assert Peek(s1.mem, plan.addr, 0) == 0xE9 by {
      FirstByte(plan);
      assert Diff(plan.addr, plan.addr) == 0 && s1.mem(plan.addr) == PatchOf(W32, plan)[0];
    }
    assert Peek(mem, plan.addr, 0) == 0x55 by {
      assert [0x55, 0x8B, 0xEC, 0x81, 0xEC][0] == 0x55;
    }
  }

  lemma NothingArmed(mem: Mem, plan: Plan)
    ensures !Armed(mem, [], plan.name, plan.detour)
  {
  }

  lemma FirstByte(plan: Plan)
    requires CanPatch(W32, plan) && plan.len >= 5 && RelReaches(W32, plan.addr, plan.detour)
    ensures PatchOf(W32, plan)[0] == 0xE9
  {
  }
}
