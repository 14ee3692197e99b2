/**
  Whole sequences of `PlantHook` calls, failed ones among them, on targets that do
  not overlap: every planted hook keeps working, `RemoveHooks` undoes exactly the
  recorded ones, and exactly those are reported armed.
 */
module HookRuns {
  import opened OpcodeTable
  import opened Decoder
  import opened DecoderTheory
  import opened HookLength
  import opened CodeHooks
  import opened Machine
  import opened HookInventory

  /** Successive states of a sequence of calls. */
  ghost predicate PlantRun(t: Table, w: Width, states: seq<Ledger>, plans: seq<Plan>) {
    && |states| == |plans| + 1
    && forall i | 0 <= i < |plans| ::
         Feasible(states[i].mapped, plans[i]) && PlantStep(t, w, states[i], plans[i], states[i + 1])
  }

  /** The targets lie in code mapped beforehand and do not overlap. */
  ghost predicate Apart(mapped: set<Word>, plans: seq<Plan>) {
    && (forall i | 0 <= i < |plans| && plans[i].addr != 0 :: Block(plans[i].addr, plans[i].len) <= mapped)
    && (forall i, j | 0 <= i < j < |plans| && plans[i].addr != 0 && plans[j].addr != 0 ::
          Block(plans[i].addr, plans[i].len) !! Block(plans[j].addr, plans[j].len))
  }

  /** The i-th call wrote a jump. */
  predicate Wrote(t: Table, w: Width, states: seq<Ledger>, plans: seq<Plan>, i: nat)
    requires i < |plans| && i < |states|
  {
    Plants(t, w, states[i].mem, plans[i])
  }

  /** The i-th call saved the bytes of its target: they fit a record, and there was
      a record left. */
  predicate Saved(t: Table, states: seq<Ledger>, plans: seq<Plan>, i: nat)
    requires i < |plans| && i < |states|
  {
    Tries(t, states[i].mem, plans[i]) && Trackable(|states[i].planted|, plans[i].addr, plans[i].len)
  }

  function RecordOf(mem: Mem, plan: Plan): Record {
    Record(plan.name, plan.addr, PeekN(mem, plan.addr, 0, plan.len))
  }

  // ------------------------------------------------------------------
  // One hook
  // ------------------------------------------------------------------

  predicate CanPatch(w: Width, plan: Plan) {
    plan.len <= 64 && plan.os.region.Region? && (UsesRel(w, plan.addr, plan.detour, plan.len) || plan.len >= 6)
  }

  function PatchOf(w: Width, plan: Plan): (r: seq<Byte>)
    requires CanPatch(w, plan)
    ensures |r| == plan.len
  {
    AutoPatch(w, plan.addr, plan.detour, plan.len)
  }

  /** The hook's patch is at its target, and its trampoline, with the bytes memory
      had at first, is where it was put. */
  ghost predicate InPlace(w: Width, s0: Ledger, s: Ledger, plan: Plan) {
    && CanPatch(w, plan)
    && Reads(s.mem, plan.addr, PatchOf(w, plan))
    && Reads(s.mem, plan.os.region.at, TrampBytes(w, s0.mem, plan))
    && TrampBlock(w, plan) <= s.mapped && TrampBlock(w, plan) !! s0.mapped
  }

  lemma AutoPlantedOutside(w: Width, mem: Mem, plan: Plan, tr: Word, x: Word)
    requires UsesRel(w, plan.addr, plan.detour, plan.len) || plan.len >= 6
    requires plan.len <= 64 && x !in Block(tr, plan.len + 7) && x !in Block(plan.addr, plan.len)
    ensures AutoPlanted(w, mem, plan.addr, plan.detour, plan.len, tr)(x) == mem(x)
  {
    InBlock(x, tr, plan.len + 7);
    InBlock(x, plan.addr, plan.len);
  }

  /** One call changes no mapped byte outside its target, and none at all unless it
      plants. */
  lemma StepFrame(t: Table, w: Width, s: Ledger, plan: Plan, s': Ledger, x: Word)
    requires Feasible(s.mapped, plan) && PlantStep(t, w, s, plan, s') && x in s.mapped
    requires Plants(t, w, s.mem, plan) ==> x !in Block(plan.addr, plan.len)
    ensures s'.mem(x) == s.mem(x)
  {
    hide AutoPlanted, Armed, Tiles;
    if Plants(t, w, s.mem, plan) {
      AutoPlantedOutside(w, s.mem, plan, plan.os.region.at, x);
    }
  }

  lemma ReadsFrame(before: Mem, after: Mem, at: Word, bytes: seq<Byte>)
    requires Reads(before, at, bytes) && forall x | x in Block(at, |bytes|) :: after(x) == before(x)
    ensures Reads(after, at, bytes)
  {
    forall i: nat | i < |bytes| ensures Peek(after, at, i) == bytes[i] {
      assert Add(at, i) in Block(at, |bytes|);
    }
  }

  /** Another hook's call leaves a hook in place. */
  lemma StaysInPlace(t: Table, w: Width, s0: Ledger, s: Ledger, plan: Plan, s': Ledger, hook: Plan)
    requires Feasible(s.mapped, plan) && PlantStep(t, w, s, plan, s')
    requires s0.mapped <= s.mapped && InPlace(w, s0, s, hook) && Block(hook.addr, hook.len) <= s0.mapped
    requires plan.addr != 0 ==> Block(plan.addr, plan.len) <= s0.mapped
                                && Block(plan.addr, plan.len) !! Block(hook.addr, hook.len)
    ensures InPlace(w, s0, s', hook)
  {
    hide AutoPlanted, Armed, Tiles, PatchOf, AutoBack, TrampBytes, Reads, Block;
    var tr := hook.os.region.at;
    forall x | x in Block(hook.addr, hook.len) || x in TrampBlock(w, hook) ensures s'.mem(x) == s.mem(x) {
      StepFrame(t, w, s, plan, s', x);
    }
    ReadsFrame(s.mem, s'.mem, hook.addr, PatchOf(w, hook));
    assert |TrampBytes(w, s0.mem, hook)| == hook.len + |AutoBack(w, hook.addr, hook.detour, hook.len, tr)| by {
      TrampLength(w, s0.mem, hook);
    }
    ReadsFrame(s.mem, s'.mem, tr, TrampBytes(w, s0.mem, hook));
  }

  lemma TrampLength(w: Width, mem: Mem, plan: Plan)
    requires plan.os.region.Region?
    ensures |TrampBytes(w, mem, plan)|
            == plan.len + |AutoBack(w, plan.addr, plan.detour, plan.len, plan.os.region.at)| <= plan.len + 7
  {
  }

  /** A call that plants puts its hook in place. */
  lemma NowInPlace(t: Table, w: Width, s0: Ledger, s: Ledger, plan: Plan, s': Ledger)
    requires Feasible(s.mapped, plan) && PlantStep(t, w, s, plan, s') && Plants(t, w, s.mem, plan)
    requires s0.mapped <= s.mapped
    requires PeekN(s.mem, plan.addr, 0, plan.len) == PeekN(s0.mem, plan.addr, 0, plan.len)
    ensures InPlace(w, s0, s', plan)
  {
    hide Armed, Tiles, AutoBack, AutoPatch, Reads, Poke;
    var tr, back := plan.os.region.at, AutoBack(w, plan.addr, plan.detour, plan.len, plan.os.region.at);
    TrampLength(w, s.mem, plan);
    assert TrampBlock(w, plan) <= Block(tr, plan.len + 7);
    PlantedReads(s.mem, s'.mem, tr, TrampBytes(w, s.mem, plan), plan.addr, PatchOf(w, plan));
  }

  // ------------------------------------------------------------------
  // All hooks of a sequence
  // ------------------------------------------------------------------

  /** Some call among the first `n` wrote its jump over `x`. */
  ghost predicate Covered(t: Table, w: Width, states: seq<Ledger>, plans: seq<Plan>, n: nat, x: Word)
    requires n <= |plans| && n <= |states|
  {
    exists i: nat | i < n :: Wrote(t, w, states, plans, i) && x in Block(plans[i].addr, plans[i].len)
  }

  /** The record the i-th call made. */
  predicate SavedAs(t: Table, states: seq<Ledger>, plans: seq<Plan>, i: nat, r: Record)
    requires i < |plans| && i < |states|
  {
    Saved(t, states, plans, i) && r == RecordOf(states[0].mem, plans[i])
  }

  /** One of the first `n` calls made the record. */
  ghost predicate HasSource(t: Table, states: seq<Ledger>, plans: seq<Plan>, n: nat, r: Record)
    requires n <= |plans| && n <= |states|
  {
    exists i: nat | i < n :: SavedAs(t, states, plans, i, r)
  }

  /** Every record was made by a call. */
  ghost predicate RecordsHaveSources(t: Table, states: seq<Ledger>, plans: seq<Plan>, n: nat)
    requires n <= |plans| && n < |states|
  {
    forall k | 0 <= k < |states[n].planted| :: HasSource(t, states, plans, n, states[n].planted[k])
  }

  /** Every call that saved something left its record. */
  ghost predicate SavedHaveRecords(t: Table, states: seq<Ledger>, plans: seq<Plan>, n: nat)
    requires n <= |plans| && n < |states|
  {
    forall i: nat | i < n && Saved(t, states, plans, i) :: RecordOf(states[0].mem, plans[i]) in states[n].planted
  }

  /** The records are those of the calls that saved something. */
  ghost predicate RecordsMatch(t: Table, states: seq<Ledger>, plans: seq<Plan>, n: nat)
    requires n <= |plans| && n < |states|
  {
    RecordsHaveSources(t, states, plans, n) && SavedHaveRecords(t, states, plans, n)
  }

  lemma RecordHasSource(t: Table, states: seq<Ledger>, plans: seq<Plan>, n: nat, k: nat) returns (i: nat)
    requires n <= |plans| && n < |states| && RecordsHaveSources(t, states, plans, n) && k < |states[n].planted|
    ensures i < n && Saved(t, states, plans, i) && states[n].planted[k] == RecordOf(states[0].mem, plans[i])
  {
    hide Saved, RecordOf;
    assert HasSource(t, states, plans, n, states[n].planted[k]);
    i :| i < n && SavedAs(t, states, plans, i, states[n].planted[k]);
  }

  lemma SavedHasRecord(t: Table, states: seq<Ledger>, plans: seq<Plan>, n: nat, i: nat) returns (k: nat)
    requires i < n <= |plans| && n < |states| && SavedHaveRecords(t, states, plans, n) && Saved(t, states, plans, i)
    ensures k < |states[n].planted| && states[n].planted[k] == RecordOf(states[0].mem, plans[i])
  {
    hide Saved, RecordOf;
    k :| 0 <= k < |states[n].planted| && states[n].planted[k] == RecordOf(states[0].mem, plans[i]);
  }

  /** What holds after the first `n` calls. */
  ghost predicate Kept(t: Table, w: Width, states: seq<Ledger>, plans: seq<Plan>, n: nat)
    requires n <= |plans| && n < |states|
  {
    && states[0].mapped <= states[n].mapped
    && (forall i: nat | i < n && Wrote(t, w, states, plans, i) :: InPlace(w, states[0], states[n], plans[i]))
    && (forall x | x in states[0].mapped && !Covered(t, w, states, plans, n, x) ::
          states[n].mem(x) == states[0].mem(x))
    && RecordsMatch(t, states, plans, n)
  }

  lemma Disjoint(mapped: set<Word>, plans: seq<Plan>, i: nat, j: nat, x: Word)
    requires Apart(mapped, plans) && i < |plans| && j < |plans| && i != j
    requires plans[i].addr != 0 && plans[j].addr != 0 && x in Block(plans[i].addr, plans[i].len)
    ensures x !in Block(plans[j].addr, plans[j].len)
  {
    if i < j {
      assert Block(plans[i].addr, plans[i].len) !! Block(plans[j].addr, plans[j].len);
    } else {
      assert Block(plans[j].addr, plans[j].len) !! Block(plans[i].addr, plans[i].len);
    }
  }

  /** The target of the next call still has its original bytes. */
  lemma TargetIsPristine(t: Table, w: Width, states: seq<Ledger>, plans: seq<Plan>, n: nat)
    requires n < |plans| && n < |states| && Kept(t, w, states, plans, n) && Apart(states[0].mapped, plans)
    requires plans[n].addr != 0
    ensures PeekN(states[n].mem, plans[n].addr, 0, plans[n].len) == PeekN(states[0].mem, plans[n].addr, 0, plans[n].len)
  {
    hide Tiles, AutoSucceeds, RecordsMatch, InPlace;
    var at := plans[n].addr;
    forall k: nat | k < plans[n].len ensures Peek(states[n].mem, at, k) == Peek(states[0].mem, at, k) {
      var x := Add(at, k);
      assert x in Block(at, plans[n].len);
      if i: nat :| i < n && Wrote(t, w, states, plans, i) && x in Block(plans[i].addr, plans[i].len) {
        Disjoint(states[0].mapped, plans, n, i, x);
      }
    }
  }

  lemma HooksStep(t: Table, w: Width, states: seq<Ledger>, plans: seq<Plan>, n: nat)
    requires PlantRun(t, w, states, plans) && Apart(states[0].mapped, plans)
    requires n < |plans| && Kept(t, w, states, plans, n)
    ensures forall i: nat | i < n + 1 && Wrote(t, w, states, plans, i) :: InPlace(w, states[0], states[n + 1], plans[i])
  {
    hide PlantStep, InPlace, Feasible, Covered, RecordsMatch, Block, AutoSucceeds;
    forall i: nat | i < n + 1 && Wrote(t, w, states, plans, i)
      ensures InPlace(w, states[0], states[n + 1], plans[i])
    {
      if i == n {
        TargetIsPristine(t, w, states, plans, n);
        NowInPlace(t, w, states[0], states[n], plans[n], states[n + 1]);
      } else {
        assert InPlace(w, states[0], states[n], plans[i]);
        StaysInPlace(t, w, states[0], states[n], plans[n], states[n + 1], plans[i]);
      }
    }
  }

  lemma ImageStep(t: Table, w: Width, states: seq<Ledger>, plans: seq<Plan>, n: nat, x: Word)
    requires PlantRun(t, w, states, plans) && n < |plans| && Kept(t, w, states, plans, n)
    requires x in states[0].mapped && !Covered(t, w, states, plans, n + 1, x)
    ensures states[n + 1].mem(x) == states[0].mem(x)
  {
    hide PlantStep, InPlace, Feasible, RecordsMatch, Block, Plants;
    if Wrote(t, w, states, plans, n) {
      assert x !in Block(plans[n].addr, plans[n].len);
    }
    StepFrame(t, w, states[n], plans[n], states[n + 1], x);
  }

  /** A call appends its record, if it saves anything, and nothing else. */
  lemma LedgerStep(t: Table, w: Width, states: seq<Ledger>, plans: seq<Plan>, n: nat)
    requires PlantRun(t, w, states, plans) && Apart(states[0].mapped, plans)
    requires n < |plans| && Kept(t, w, states, plans, n)
    ensures states[n + 1].planted
            == states[n].planted + (if Saved(t, states, plans, n) then [RecordOf(states[0].mem, plans[n])] else [])
  {
    hide InPlace, Feasible, Covered, Block, Plants, Armed, PeekN, LenOk, RecordsMatch;
    if plans[n].addr != 0 {
      TargetIsPristine(t, w, states, plans, n);
    }
    assert PlantStep(t, w, states[n], plans[n], states[n + 1]);
  }

  lemma RecordsStep(t: Table, w: Width, states: seq<Ledger>, plans: seq<Plan>, n: nat)
    requires PlantRun(t, w, states, plans) && Apart(states[0].mapped, plans)
    requires n < |plans| && Kept(t, w, states, plans, n)
    ensures RecordsMatch(t, states, plans, n + 1)
  {
    hide InPlace, PlantStep, Feasible, Apart, Covered, Wrote, Saved, RecordOf, RecordsHaveSources;
    LedgerStep(t, w, states, plans, n);
    SourcesStep(t, states, plans, n);
    forall i: nat | i < n + 1 && Saved(t, states, plans, i)
      ensures RecordOf(states[0].mem, plans[i]) in states[n + 1].planted
    {
      if i < n {
        var k := SavedHasRecord(t, states, plans, n, i);
        assert states[n + 1].planted[k] == states[n].planted[k];
      } else {
        assert states[n + 1].planted[|states[n].planted|] == RecordOf(states[0].mem, plans[n]);
      }
    }
  }

  lemma SourcesStep(t: Table, states: seq<Ledger>, plans: seq<Plan>, n: nat)
    requires n < |plans| && n + 1 < |states| && RecordsHaveSources(t, states, plans, n)
    requires states[n + 1].planted
             == states[n].planted + (if Saved(t, states, plans, n) then [RecordOf(states[0].mem, plans[n])] else [])
    ensures RecordsHaveSources(t, states, plans, n + 1)
  {
    hide Saved, RecordOf;
    var before, after := states[n].planted, states[n + 1].planted;
    forall k | 0 <= k < |after| ensures HasSource(t, states, plans, n + 1, after[k]) {
      if k < |before| {
        var i := RecordHasSource(t, states, plans, n, k);
        assert after[k] == before[k] && SavedAs(t, states, plans, i, after[k]);
      } else {
        assert SavedAs(t, states, plans, n, after[k]);
      }
    }
  }

  lemma {:induction false} KeptAlways(t: Table, w: Width, states: seq<Ledger>, plans: seq<Plan>, n: nat)
    requires PlantRun(t, w, states, plans) && states[0].planted == [] && Apart(states[0].mapped, plans)
    requires n <= |plans|
    ensures Kept(t, w, states, plans, n)
  {
    hide InPlace, Feasible, Covered, RecordsMatch, Wrote;
    if n > 0 {
      KeptAlways(t, w, states, plans, n - 1);
      HooksStep(t, w, states, plans, n - 1);
      RecordsStep(t, w, states, plans, n - 1);
      forall x | x in states[0].mapped && !Covered(t, w, states, plans, n, x)
        ensures states[n].mem(x) == states[0].mem(x)
      {
        ImageStep(t, w, states, plans, n - 1, x);
      }
      assert PlantStep(t, w, states[n - 1], plans[n - 1], states[n - 1 + 1]);
    } else {
      NoRecords(t, states, plans);
    }
  }

  lemma NoRecords(t: Table, states: seq<Ledger>, plans: seq<Plan>)
    requires |states| > 0 && states[0].planted == []
    ensures RecordsMatch(t, states, plans, 0)
  {
  }

  /** On the 32-bit build, after any sequence of calls: every hook that was planted
      still sends its callers to its detour, and its trampoline still is the
      original function. */
  lemma EveryHookWorks<D>(t: Table, states: seq<Ledger>, plans: seq<Plan>, i: nat, exec: Exec<D>, r: Regs<D>)
    returns (k: nat, r': Regs<D>)
    requires PlantRun(t, W32, states, plans) && states[0].planted == [] && Apart(states[0].mapped, plans)
    requires i < |plans| && Wrote(t, W32, states, plans, i)
    requires Straight(t, states[0].mem, plans[i].addr, 0, plans[i].len)
    ensures var code, plan := states[|plans|].mem, plans[i];
            var back, tr := Add(plan.addr, plan.len), plan.os.region.at;
            && Run(t, states[0].mem, exec, k, Cpu(plan.addr, r)) == Go(Cpu(back, r'))
            && Run(t, code, exec, k + 1, Cpu(tr, r)) == Go(Cpu(back, r'))
            && Run(t, code, exec, 1, Cpu(plan.addr, r)) == Go(Cpu(plan.detour, r))
  {
    hide Run, Straight, Tiles, Reads, PlantStep, Feasible, Apart, Kept, RelReaches, Peek;
    var m0, plan := states[0].mem, plans[i];
    KeptAlways(t, W32, states, plans, |plans|);
    KeptAlways(t, W32, states, plans, i);
    TargetIsPristine(t, W32, states, plans, i);
    LenOkAtFirst(t, states[i].mem, m0, plan);
    HookInPlace(t, W32, states, plans, i);
    RelAlwaysReaches32(plan.addr, plan.detour);
    k, r' := RelativeHookRuns(t, m0, states[|plans|].mem, plan.addr, plan.detour, plan.len, plan.os.region.at, exec, r);
  }

  lemma HookInPlace(t: Table, w: Width, states: seq<Ledger>, plans: seq<Plan>, i: nat)
    requires |states| == |plans| + 1 && i < |plans| && Kept(t, w, states, plans, |plans|)
    requires Wrote(t, w, states, plans, i)
    ensures InPlace(w, states[0], states[|plans|], plans[i])
  {
  }

  lemma LenOkAtFirst(t: Table, m: Mem, m0: Mem, plan: Plan)
    requires LenOk(t, m, plan.addr, plan.len) && PeekN(m, plan.addr, 0, plan.len) == PeekN(m0, plan.addr, 0, plan.len)
    ensures LenOk(t, m0, plan.addr, plan.len)
  {
    hide Tiles, Peek;
    forall i: nat | i < plan.len ensures Peek(m, plan.addr, i) == Peek(m0, plan.addr, i) {
      assert PeekN(m, plan.addr, 0, plan.len)[i] == PeekN(m0, plan.addr, 0, plan.len)[i];
    }
    CopyTiles(t, m, plan.addr, m0, plan.addr, 0, plan.len);
  }

  // ------------------------------------------------------------------
  // Undoing a sequence
  // ------------------------------------------------------------------

  /** A record holds the bytes memory `m0` had at its target. */
  predicate Faithful(m0: Mem, r: Record) {
    r.target != 0 && 0 < |r.orig| <= MAX_ORIG && r.orig == PeekN(m0, r.target, 0, |r.orig|)
  }

  ghost predicate Recorded(planted: seq<Record>, x: Word) {
    exists k | 0 <= k < |planted| :: x in Block(planted[k].target, |planted[k].orig|)
  }

  lemma PokeFaithful(m0: Mem, mem: Mem, r: Record, x: Word)
    requires Faithful(m0, r)
    ensures Poke(mem, r.target, r.orig)(x) == if x in Block(r.target, |r.orig|) then m0(x) else mem(x)
  {
    InBlock(x, r.target, |r.orig|);
    if Diff(x, r.target) < |r.orig| {
      AddDiff(x, r.target);
      assert r.orig[Diff(x, r.target)] == Peek(m0, r.target, Diff(x, r.target));
    }
  }

  lemma {:induction false} RestoreIsFaithful(m0: Mem, mem: Mem, planted: seq<Record>, ok: seq<bool>, x: Word)
    requires |ok| == |planted| && forall i | 0 <= i < |ok| :: ok[i]
    requires forall k | 0 <= k < |planted| :: Faithful(m0, planted[k])
    ensures Restore(mem, planted, ok)(x) == if Recorded(planted, x) || mem(x) == m0(x) then m0(x) else mem(x)
    decreases |planted|
  {
    if planted != [] {
      var r := planted[0];
      var mem1 := Poke(mem, r.target, r.orig);
      PokeFaithful(m0, mem, r, x);
      assert Faithful(m0, r);
      RestoreIsFaithful(m0, mem1, planted[1..], ok[1..], x);
      assert Restore(mem, planted, ok) == Restore(mem1, planted[1..], ok[1..]);
      if Recorded(planted, x) && x !in Block(r.target, |r.orig|) {
        var k :| 0 <= k < |planted| && x in Block(planted[k].target, |planted[k].orig|);
        assert planted[1..][k - 1] == planted[k];
      }
      if Recorded(planted[1..], x) {
        var k :| 0 <= k < |planted[1..]| && x in Block(planted[1..][k].target, |planted[1..][k].orig|);
        assert planted[k + 1] == planted[1..][k];
      }
    }
  }

  /** What removal makes of a sequence, every write succeeding. */
  function Undone(states: seq<Ledger>): Mem
    requires states != []
  {
    var s := states[|states| - 1];
    Restore(s.mem, s.planted, seq(|s.planted|, i => true))
  }

  lemma RecordIsFaithful(t: Table, states: seq<Ledger>, plans: seq<Plan>, k: nat)
    requires |states| == |plans| + 1 && RecordsHaveSources(t, states, plans, |plans|)
    requires k < |states[|plans|].planted|
    ensures Faithful(states[0].mem, states[|plans|].planted[k])
  {
    hide PeekN, LenOk, RecordsHaveSources;
    var i := RecordHasSource(t, states, plans, |plans|, k);
  }

  lemma UndoneByte(t: Table, w: Width, states: seq<Ledger>, plans: seq<Plan>, x: Word)
    requires |states| == |plans| + 1 && Kept(t, w, states, plans, |plans|)
    ensures var s0, s := states[0], states[|plans|];
            Undone(states)(x) == if Recorded(s.planted, x) then s0.mem(x) else s.mem(x)
  {
    hide Covered, InPlace, Restore, Recorded, RecordsHaveSources, SavedHaveRecords, Faithful;
    var s := states[|plans|];
    forall k | 0 <= k < |s.planted| ensures Faithful(states[0].mem, s.planted[k]) {
      RecordIsFaithful(t, states, plans, k);
    }
    RestoreIsFaithful(states[0].mem, s.mem, s.planted, seq(|s.planted|, i => true), x);
  }

  /** A byte is recorded when the call over it saved it. */
  lemma RecordedIff(t: Table, w: Width, states: seq<Ledger>, plans: seq<Plan>, i: nat, x: Word)
    requires |states| == |plans| + 1 && Kept(t, w, states, plans, |plans|) && Apart(states[0].mapped, plans)
    requires i < |plans| && Wrote(t, w, states, plans, i) && x in Block(plans[i].addr, plans[i].len)
    ensures Recorded(states[|plans|].planted, x) <==> Saved(t, states, plans, i)
  {
    hide Covered, InPlace, PeekN, LenOk, Block, AutoSucceeds, Apart, RecordsHaveSources, SavedHaveRecords;
    var planted := states[|plans|].planted;
    if Saved(t, states, plans, i) {
      var k := SavedHasRecord(t, states, plans, |plans|, i);
    }
    if Recorded(planted, x) {
      var k :| 0 <= k < |planted| && x in Block(planted[k].target, |planted[k].orig|);
      var j := RecordHasSource(t, states, plans, |plans|, k);
      if j != i {
        Disjoint(states[0].mapped, plans, i, j, x);
      }
    }
  }

  /** Memory `mem` with the hook's jump written over its target. */
  function Overlaid(w: Width, mem: Mem, plan: Plan): Mem {
    if CanPatch(w, plan) then Poke(mem, plan.addr, PatchOf(w, plan)) else mem
  }

  lemma InPlaceByte(w: Width, s0: Ledger, s: Ledger, plan: Plan, x: Word)
    requires InPlace(w, s0, s, plan) && x in Block(plan.addr, plan.len)
    ensures s.mem(x) == Overlaid(w, s0.mem, plan)(x)
  {
    hide PatchOf, TrampBytes, TrampBlock;
    InBlock(x, plan.addr, plan.len);
    AddDiff(x, plan.addr);
    assert Peek(s.mem, plan.addr, Diff(x, plan.addr)) == s.mem(x);
  }

  /** `RemoveHooks` after any sequence of calls: every byte a saved hook overwrote is
      the original again, every byte an unsaved hook overwrote still is that hook's,
      and the rest of the image is as it was. */
  lemma RemoveHooksRestores(t: Table, w: Width, states: seq<Ledger>, plans: seq<Plan>, x: Word)
    requires PlantRun(t, w, states, plans) && states[0].planted == [] && Apart(states[0].mapped, plans)
    requires x in states[0].mapped
    ensures forall i: nat | i < |plans| && Wrote(t, w, states, plans, i) && x in Block(plans[i].addr, plans[i].len) ::
              Undone(states)(x) == if Saved(t, states, plans, i) then states[0].mem(x)
                                   else Overlaid(w, states[0].mem, plans[i])(x)
    ensures !Covered(t, w, states, plans, |plans|, x) ==> Undone(states)(x) == states[0].mem(x)
  {
    hide PlantStep, Feasible, Recorded, Overlaid, Undone, Wrote, Saved, RecordsMatch, InPlace;
    KeptAlways(t, w, states, plans, |plans|);
    UndoneByte(t, w, states, plans, x);
    forall i: nat | i < |plans| && Wrote(t, w, states, plans, i) && x in Block(plans[i].addr, plans[i].len)
      ensures Undone(states)(x) == if Saved(t, states, plans, i) then states[0].mem(x)
                                   else Overlaid(w, states[0].mem, plans[i])(x)
    {
      RecordedIff(t, w, states, plans, i, x);
      InPlaceByte(w, states[0], states[|plans|], plans[i], x);
    }
  }

  /** The hook's jump happens to be what was there. */
  ghost predicate Idle(w: Width, mem: Mem, plan: Plan) {
    forall x | x in Block(plan.addr, plan.len) :: Overlaid(w, mem, plan)(x) == mem(x)
  }

  /** So removal restores the whole image exactly when every hook that was planted
      was saved, or changed nothing in the first place. */
  lemma RestoresAllIff(t: Table, w: Width, states: seq<Ledger>, plans: seq<Plan>)
    requires PlantRun(t, w, states, plans) && states[0].planted == [] && Apart(states[0].mapped, plans)
    ensures (forall x | x in states[0].mapped :: Undone(states)(x) == states[0].mem(x))
            <==> forall i: nat | i < |plans| && Wrote(t, w, states, plans, i) ::
                   Saved(t, states, plans, i) || Idle(w, states[0].mem, plans[i])
  {
    hide PlantStep, Feasible, Overlaid, Undone, Saved, Block, Tiles, AutoSucceeds;
    var m0 := states[0].mem;
    if forall x | x in states[0].mapped :: Undone(states)(x) == m0(x) {
      forall i: nat | i < |plans| && Wrote(t, w, states, plans, i)
        ensures Saved(t, states, plans, i) || Idle(w, m0, plans[i])
      {
        forall x | x in Block(plans[i].addr, plans[i].len) && !Saved(t, states, plans, i)
          ensures Overlaid(w, m0, plans[i])(x) == m0(x)
        {
          RemoveHooksRestores(t, w, states, plans, x);
        }
      }
    }
    if forall i: nat | i < |plans| && Wrote(t, w, states, plans, i) ::
         Saved(t, states, plans, i) || Idle(w, m0, plans[i])
    {
      forall x | x in states[0].mapped ensures Undone(states)(x) == m0(x) {
        RemoveHooksRestores(t, w, states, plans, x);
      }
    }
  }

  // ------------------------------------------------------------------
  // How many hooks are reported armed
  // ------------------------------------------------------------------

  /** Calls among the first `n` that planted a hook and saved its bytes. */
  function Confirmed(t: Table, w: Width, states: seq<Ledger>, plans: seq<Plan>, n: nat): nat
    requires n <= |plans| && n <= |states|
  {
    if n == 0 then 0
    else
      Confirmed(t, w, states, plans, n - 1)
      + if Wrote(t, w, states, plans, n - 1) && Saved(t, states, plans, n - 1) then 1 else 0
  }

  ghost predicate NamesFrom(plans: seq<Plan>, n: nat, planted: seq<Record>)
    requires n <= |plans|
  {
    forall k | 0 <= k < |planted| :: exists i | 0 <= i < n :: planted[k].name == plans[i].name
  }

  lemma NamesStep(t: Table, w: Width, states: seq<Ledger>, plans: seq<Plan>, n: nat)
    requires PlantRun(t, w, states, plans) && n < |plans| && NamesFrom(plans, n, states[n].planted)
    ensures NamesFrom(plans, n + 1, states[n + 1].planted)
  {
    hide Feasible, Armed, AutoPlanted, Tries, Plants, PeekN;
    var s, s' := states[n], states[n + 1];
    assert PlantStep(t, w, s, plans[n], s');
    forall k | 0 <= k < |s'.planted| ensures exists i | 0 <= i < n + 1 :: s'.planted[k].name == plans[i].name {
      if k < |s.planted| {
        assert s'.planted[k] == s.planted[k];
        var i :| 0 <= i < n && s.planted[k].name == plans[i].name;
      } else {
        assert s'.planted[k].name == plans[n].name;
      }
    }
  }

  /** With distinct names, exactly the hooks that were planted and saved are reported
      armed: none with a prefix of more than eight bytes, none beyond the eighth. */
  lemma {:induction false} ArmedCount(t: Table, w: Width, states: seq<Ledger>, plans: seq<Plan>, n: nat)
    requires PlantRun(t, w, states, plans) && states[0].planted == [] && states[0].ok == 0 && n <= |plans|
    requires forall i, j | 0 <= i < j < |plans| :: plans[i].name != plans[j].name
    ensures states[n].ok == Confirmed(t, w, states, plans, n)
    ensures NamesFrom(plans, n, states[n].planted)
    ensures |states[n].planted| <= n
  {
    hide Feasible, Armed, AutoPlanted, LenOk, AutoSucceeds, Trackable, PeekN;
    if n > 0 {
      var s, plan := states[n - 1], plans[n - 1];
      ArmedCount(t, w, states, plans, n - 1);
      NamesStep(t, w, states, plans, n - 1);
      assert PlantStep(t, w, s, plan, states[n - 1 + 1]);
      forall k | 0 <= k < |s.planted| ensures s.planted[k].name != plan.name {
        var i :| 0 <= i < n - 1 && s.planted[k].name == plans[i].name;
      }
      if Wrote(t, w, states, plans, n - 1) {
        ConfirmedIffTracked(t, w, s, plan, states[n]);
      }
    }
  }

  /** Start-up plants prefixes of 9, 6, 6 and 9 bytes.  What it reports as armed is
      the number of the two short ones that were planted, two of four at best. */
  lemma StartupReportsTheShortOnes(t: Table, w: Width, states: seq<Ledger>, plans: seq<Plan>)
    requires PlantRun(t, w, states, plans) && states[0].planted == [] && states[0].ok == 0
    requires |plans| == 4 && plans[0].len == plans[3].len == 9 && plans[1].len == plans[2].len == 6
    requires forall i, j | 0 <= i < j < |plans| :: plans[i].name != plans[j].name
    ensures states[4].ok == (if Wrote(t, w, states, plans, 1) then 1 else 0)
                            + (if Wrote(t, w, states, plans, 2) then 1 else 0)
  {
    hide PlantStep, Feasible, LenOk, AutoSucceeds;
    forall n: nat | n <= 4 { ArmedCount(t, w, states, plans, n); }
    forall i: nat | i < 4
      ensures Wrote(t, w, states, plans, i) ==> (Saved(t, states, plans, i) <==> plans[i].len <= 8)
    {
      assert |states[i].planted| <= i;
    }
    assert Confirmed(t, w, states, plans, 0) == 0 && Confirmed(t, w, states, plans, 1) == 0;
    assert Confirmed(t, w, states, plans, 3) == Confirmed(t, w, states, plans, 4);
  }

  // ------------------------------------------------------------------
  // In plain numbers
  // ------------------------------------------------------------------

  /** A call plants exactly when the target is known, the length ends an instruction
      within 64 bytes and leaves room for a jump, and the kernel grants a region and
      the write.  The relative jump, which on the 32-bit build always reaches, needs
      five bytes, the absolute one six. */
  lemma {:induction false} PlantsIff(t: Table, w: Width, mem: Mem, plan: Plan)
    ensures Plants(t, w, mem, plan) <==>
            && plan.addr != 0 && plan.detour != 0 && plan.slot
            && (if RelReaches(w, plan.addr, plan.detour) then 5 else 6) <= plan.len <= 64
            && Tiles(t, mem, plan.addr, 0, plan.len) && plan.os.region.Region? && plan.os.writable
    ensures RelReaches(W32, plan.addr, plan.detour)
  {
    hide Tiles, RelReaches;
    RelAlwaysReaches32(plan.addr, plan.detour);
  }

  /** A record is made for eight bytes at most, and for eight hooks at most. */
  lemma {:induction false} SavedIff(t: Table, states: seq<Ledger>, plans: seq<Plan>, i: nat)
    requires i < |plans| && i < |states|
    ensures Saved(t, states, plans, i) <==>
            && plans[i].addr != 0 && 1 <= plans[i].len <= 8 && |states[i].planted| < 8
            && Tiles(t, states[i].mem, plans[i].addr, 0, plans[i].len)
  {
    hide Tiles;
  }

  /** A planted hook on the 32-bit build: a jump and nothing but NOPs behind it. */
  lemma PatchInPlain(s0: Ledger, s: Ledger, plan: Plan)
    requires InPlace(W32, s0, s, plan) && plan.len >= 5
    ensures Peek(s.mem, plan.addr, 0) == 0xE9
    ensures forall k: nat | 5 <= k < plan.len :: Peek(s.mem, plan.addr, k) == 0x90
  {
    hide TrampBytes, TrampBlock, JmpRel, Peek, RelReaches;
    RelAlwaysReaches32(plan.addr, plan.detour);
    var jump := JmpRel(plan.addr, plan.detour);
    assert PatchOf(W32, plan) == jump + Nops(plan.len - 5);
    assert jump[0] == 0xE9 by { JumpOpcode(plan.addr, plan.detour); }
    forall k: nat | 5 <= k < plan.len ensures Peek(s.mem, plan.addr, k) == 0x90 {
      assert PatchOf(W32, plan)[k] == Nops(plan.len - 5)[k - 5];
    }
  }

  lemma JumpOpcode(at: Word, to: Word)
    ensures JmpRel(at, to)[0] == 0xE9
  {
  }

  /** The absolute form pads with NOPs too. */
  lemma AbsolutePatchInPlain(detour: Word, len: nat)
    requires len >= 6
    ensures var p := PatchAbs(detour, len);
            |p| == len && p[0] == 0x68 && p[5] == 0xC3 && forall k | 6 <= k < len :: p[k] == 0x90
  {
  }

  /** Operands lie in memory low byte first. */
  lemma LittleEndian(b: seq<Byte>)
    requires |b| == 4
    ensures FromLe32(b)
            == b[0] as int + (b[1] as int) * 0x100 + (b[2] as int) * 0x1_0000 + (b[3] as int) * 0x100_0000
    ensures Le32(FromLe32(b)) == b
  {
    Le32Unique(b);
  }

  /** With 64-bit pointers the relative form is for distances of a signed 32-bit
      number from behind the jump. */
  lemma RelReaches64Iff(target: Word, detour: Word)
    ensures RelReaches(W64, target, detour) <==> -0x8000_0000 <= detour - (target + 5) % 0x1_0000_0000 < 0x8000_0000
  {
  }

  /** The first record of a name decides whether its hook is armed. */
  lemma {:induction false} FirstRecordDecides(mem: Mem, planted: seq<Record>, name: string, detour: Word)
    ensures Armed(mem, planted, name, detour) <==>
            exists k | 0 <= k < |planted| ::
              && planted[k].name == name && PointsTo(mem, planted[k].target, detour)
              && forall j | 0 <= j < k :: planted[j].name != name
  {
    hide PointsTo;
    if planted != [] && planted[0].name != name {
      var rest := planted[1..];
      FirstRecordDecides(mem, rest, name, detour);
      if Armed(mem, planted, name, detour) {
        var k :| 0 <= k < |rest| && rest[k].name == name && PointsTo(mem, rest[k].target, detour)
                 && forall j | 0 <= j < k :: rest[j].name != name;
        forall j | 0 <= j < k + 1 ensures planted[j].name != name {
          if j > 0 { assert planted[j] == rest[j - 1]; }
        }
        assert planted[k + 1] == rest[k];
      }
      if k :| 0 <= k < |planted| && planted[k].name == name && PointsTo(mem, planted[k].target, detour)
              && forall j | 0 <= j < k :: planted[j].name != name {
        assert rest[k - 1] == planted[k];
        forall j | 0 <= j < k - 1 ensures rest[j].name != name { assert rest[j] == planted[j + 1]; }
      }
    }
  }

  /** Calls among the first `n` whose target was found. */
  function Attempted(plans: seq<Plan>, n: nat): nat
    requires n <= |plans|
  {
    if n == 0 then 0 else Attempted(plans, n - 1) + (if plans[n - 1].addr != 0 then 1 else 0)
  }

  /** The number reported as tried. */
  lemma {:induction false} TriedCount(t: Table, w: Width, states: seq<Ledger>, plans: seq<Plan>, n: nat)
    requires PlantRun(t, w, states, plans) && n <= |plans|
    ensures states[n].tried == states[0].tried + Attempted(plans, n)
  {
    hide Feasible, Armed, AutoPlanted, Tries, Plants;
    if n > 0 {
      TriedCount(t, w, states, plans, n - 1);
      assert PlantStep(t, w, states[n - 1], plans[n - 1], states[n - 1 + 1]);
    }
  }
}
