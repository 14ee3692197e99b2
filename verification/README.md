# A verified model of japlusproxy

japlusproxy sits between a Jedi Academy game server and the closed JA+ game
library. This project models the three parts of it that carry real logic, and
proves what they promise over every input and every run.

**Flood guard** (`proxy/patch.c`). A leaky bucket of two integers, a fixed-size
table of such buckets with eviction, and the packet detours built on them.

- `RateLimiter.dfy`: one bucket. It refines a single deadline; the number of
  accepted calls in any window is bounded, and the bound is attained.
- `BucketTable.dfy`: the table, updated in place; its invariants, its evictions,
  and what they can and cannot do to an address.
- `Evictions.dfy`, `Forgiveness.dfy`: the bounded table against an unbounded one with
  a private bucket per address. From start-up they cannot be told apart exactly when
  only drained buckets are evicted; the tables the program has can be made to evict
  others.
- `FloodGuard.dfy`, `FloodRuns.dfy`, `FloodService.dfy`: the static state, the detours,
  and whole runs of them in any interleaving: what they cannot let through, and what
  they do.

**Length decoder and hook planter** (`proxy/hde32.c`, `proxy/patch.c`). A
table-driven x86 instruction-length decoder, and the code that overwrites function
prologues with jumps and keeps the displaced instructions in trampolines.

- `OpcodeTable.dfy`, `Decoder.dfy`, `DecoderTheory.dfy`, `RecordMeaning.dfy`: the
  decoder with its shipped table; it is total, its record accounts for every byte, it
  is local, and each field says what the bytes and the table say.
- `HookLength.dfy`, `Prologues.dfy`: accepted hook lengths are the instruction
  boundaries, and the recorded ones are right.
- `CodeHooks.dfy`, `Machine.dfy`, `HookInventory.dfy`: planting, a stepping machine
  on which planting preserves meaning, and the inventory that undoes it.
- `HookRuns.dfy`, `Startup.dfy`: whole sequences of plants, what still works after
  them, what removal restores and what is reported armed.

**Userinfo and command filters** (`proxy/proxy.c`). A `\key\value` store rewritten
in place, a sanitiser on top of it, and the filter for client commands.

- `CStrings.dfy`, `CharClasses.dfy`, `InfoString.dfy`, `InfoTheory.dfy`: the store
  refines an association list.
- `NameCleaner.dfy`, `NameTheory.dfy`, `Userinfo.dfy`, `UserinfoTheory.dfy`,
  `UserinfoRules.dfy`: the sanitiser, its fixed points, and its rules in plain terms.
- `CommandFilter.dfy`, `CommandTheory.dfy`, `CommandPolicy.dfy`: the filter, what it
  guarantees of the commands it lets through, and exactly which those are.

C code that changes state is modelled by methods on arrays and classes; each is
proved equal to a function on values, and the theorems are about those functions.
Clock readings, cvar values, the engine's tokens and the kernel's answers to `mmap`
and `mprotect` are parameters. Addresses are taken modulo 2^32.

## Where the code and its documentation differ

The model follows the code.

- `README.md:85` shows `hooks_armed=4/4`. `TrackHook` refuses prefixes longer than
  eight bytes (`proxy/patch.c:132`), two of the four hooks are nine bytes long, and an
  untracked hook is never confirmed: `StartupReportsTheShortOnes`.
- `proxy/patch.c:141` says that `RemoveHooks` restores every planted hook. It restores
  those that were saved, and leaves the others as they are: `RemoveHooksRestores`,
  `RestoresAllIff`, and `LongHookStays` for the recorded nine-byte prologue.
- `proxy/patch.c:302-303` and `README.md:196-199` say the engine hooks need absolute
  jumps. On the 32-bit build the range test always succeeds, so the relative form is
  always chosen: `RelAlwaysReaches32`. Both forms are proved.
- The comparisons with "darksidetools" (`proxy/proxy.c:615`) and "saber_droid"
  (`proxy/proxy.c:416`) pass a length one short of the literal: `BannedMeaning` and
  `SaberDroidMeaning` say exactly what they match.
- `CleanName` is said to return whether the output differs (`proxy/proxy.c:583`); it
  returns nothing. Its count of colourless characters is zero only when nothing was
  kept, so names made of colour codes alone pass: `KeepCharacters`.
- One application of `CleanName` need not reach its fixed point, two do:
  `CleanOnceMayNotSuffice`, `CleanTwiceIsTidy`. One is enough exactly under the
  condition of `CleanOnceSufficesIff`.
- The policy on commands (`proxy/proxy.c:293-296`) is applied to what the filter sees:
  tokens cut at 255 characters, 1023 of them joined. What lies behind is let through,
  a line break in a chat message for one: `LongSayPasses`. `AllowedWholeIsInert` and
  `AllowedIsShort` say exactly what this means for the whole command.
- "append new pair if it fits" (`proxy/proxy.c:563`): when it does not fit, the old
  pair is gone all the same: `SetRefinesUpdate`.
- Evicting a bucket that has not drained forgives its address: `EvictionForgives`
  gives a run for every table, `StartTablesForgive` for the two the program has, and
  `DrainedIffNeverTold` the exact condition under which eviction cannot matter.

## Model

| member | source | states |
|---|---|---|
| RateLimiter.CallStaysInRange | proxy/patch.c:320-339 | A call keeps 0 <= burst <= maxBurst and 0 <= lastTime <= now, and every intermediate value fits a 32-bit int |
| RateLimiter.CallRefinesDeadline | proxy/patch.c:324-338 | The pair (burst, lastTime) refines the single deadline lastTime + burst*period: same verdict, same deadline afterwards, remainder carried and not lost |
| RateLimiter.RunRefinesDeadline | proxy/patch.c:320-339 | The same over every run with a nondecreasing clock |
| RateLimiter.SpanBound | proxy/patch.c:320-339 | From any state whatever, calls within T ms have at most maxBurst + ceil(T/period) acceptances |
| RateLimiter.WindowBound | proxy/patch.c:320-339 | The same for every stretch of every run |
| RateLimiter.BoundIsAttained | proxy/patch.c:320-339 | For every burst, period and T some run has exactly maxBurst + ceil(T/period) acceptances, so no smaller bound holds |
| RateLimiter.DroppedCallsLeaveNoTrace | proxy/patch.c:334-338 | Erasing the dropped calls from a run changes no other verdict |
| RateLimiter.PatienceIsAccepted | proxy/patch.c:320-339 | A call at least one period after the previous one is accepted, whatever became of that one |
| RateLimiter.ClockGoneBackResets | proxy/patch.c:324-330 | A call earlier than the bucket's stamp empties the bucket and is accepted |
| RateLimiter.NoLimitNoDrop | proxy/patch.c:323-323 | Nonpositive limits let everything through and change nothing |
| BucketTable.RateLimit | proxy/patch.c:320-339 | In place, one call does what the value specification says and touches only that bucket's two integers; the null and nonpositive cases let the call through unchanged |
| BucketTable.BucketFor | proxy/patch.c:360-377 | The scan returns the slot the specification picks; the table is as before except that a slot not already the address's own is zeroed and claimed |
| BucketTable.PickMeaning | proxy/patch.c:361-372 | In a well-formed table the pick is the address's own slot if it has one, else the first free slot, else a slot whose stamp is the oldest |
| BucketTable.ServeShape | proxy/patch.c:360-377 | One request keeps the table well-formed and changes at most the returned slot |
| BucketTable.TableStaysWellFormed | proxy/patch.c:360-377 | In every reachable table the used slots form a prefix and their addresses are distinct |
| BucketTable.FewAddressesNeverEvict | proxy/patch.c:360-377 | While at most n addresses are in play nothing is ever evicted |
| BucketTable.PrivateBucketsAreIndependent | proxy/patch.c:360-377 | With private buckets an address's verdicts are those of its own requests alone |
| BucketTable.KeptBucketIsIndependent | proxy/patch.c:360-377 | In the bounded table the same holds for an address that is not evicted |
| BucketTable.AddressBound | proxy/patch.c:360-377 | An address that keeps its bucket is let through at most maxBurst + ceil(T/period) times in T ms |
| BucketTable.TableStaysInRange | proxy/patch.c:320-377 | In every reachable table each bucket in use has 0 < burst <= maxBurst and 0 <= lastTime <= now |
| BucketTable.SilenceIsRewarded | proxy/patch.c:320-377 | An address silent for one period is served the next time it asks, whatever others did meanwhile, evictions included |
| BucketTable.SilenceIsRewardedInRuns | proxy/patch.c:320-377 | The same at any point of any run from start-up |
| BucketTable.EvictionIsNearlyLru | proxy/patch.c:365-371 | Whoever is evicted last asked earlier than every other address's last request plus one period |
| Evictions.AlikeIffIndistinguishable | proxy/patch.c:320-339 | Two buckets get the same verdicts in every run of calls from now on iff their deadlines, caught up, are equal now and 1 ms later |
| Evictions.HarmlessMeaning | proxy/patch.c:324-338 | A used bucket is indistinguishable from a zeroed one iff it has drained: now >= lastTime + (burst+1)*period, or, with a 1 ms period, one millisecond earlier |
| Evictions.HarmlessTableIsPrivate | proxy/patch.c:360-377 | From any agreeing states, the bounded table decides every request of every run as one private bucket per address would, if every evicted bucket is as good as new |
| Evictions.BoundedTableIsPrivate | proxy/patch.c:360-377 | In particular from start-up, if every evicted bucket has drained |
| Evictions.FewAddressesArePrivate | proxy/patch.c:360-377 | And in particular while no more addresses ask than the table has slots |
| Evictions.VictimCanTell | proxy/patch.c:371-375 | An address that loses a bucket not as good as new can, asking alone, get a verdict its private bucket would not have given |
| Evictions.HarmlessIffNeverTold | proxy/patch.c:360-377 | Exactly the runs that evict only buckets as good as new are those in which, wherever some address starts asking alone, table and private buckets give the same verdicts |
| Evictions.DrainedIffNeverTold | proxy/patch.c:360-377 | From start-up these are exactly the runs that evict only drained buckets |
| Forgiveness.EvictionForgives | proxy/patch.c:371-375 | For every table size, burst and period: after an address has used up its burst and as many others as there are slots have asked, the table serves it and a private bucket does not |
| FloodRuns.StartTablesForgive | proxy/patch.c:371-375 | So do the 256-slot table at every configured rate and the 64-slot rcon table, as they are at start-up |
| FloodGuard.Guard.constructor | proxy/patch.c:343-346 | The initial statics |
| FloodGuard.Guard.RefreshCfg | proxy/patch.c:348-358 | The cached rates afterwards lie in 1..1000, and are re-read at most every 5000 ms |
| FloodGuard.Guard.OobShouldDrop | proxy/patch.c:385-402 | In place, equals the value specification ShouldDrop: per-address bucket first, aggregate bucket only if that passed |
| FloodGuard.Guard.DetourConnless | proxy/patch.c:408-424 | Forward, swallow or log exactly as the specification says, with the counters |
| FloodGuard.Guard.DetourRcon | proxy/patch.c:523-545 | The same for the rcon throttle |
| FloodGuard.Guard.DetourDoneDownload | proxy/patch.c:476-492 | The same for the download guard |
| FloodRuns.RunsAreSound | proxy/patch.c:343-402 | Every state of every run from start-up has well-formed tables, a usable configuration wherever it is used, and every bucket in the range of CallStaysInRange |
| FloodRuns.PeriodRounding | proxy/patch.c:393-397 | 1000/rate is in 1..1000, and the rounding at most doubles the configured rate |
| FloodRuns.LoopbackIsInvisible | proxy/patch.c:390-390 | Loopback traffic is never dropped, and erasing it from a run changes neither the final state nor what anyone else gets through |
| FloodRuns.AggregateIsOneBucket | proxy/patch.c:397-401 | The remote packets forwarded by any interleaving of the detours are the acceptances of one bucket |
| FloodRuns.AggregateBound | proxy/patch.c:385-402 | At most rate + ceil(T/(1000/rate)) remote packets are forwarded in T ms, whatever the addresses and evictions |
| FloodRuns.AddressShare | proxy/patch.c:393-396 | An address that keeps its bucket gets fewer than 10*rate + 2*rate*T/1000 + 1 packets through in T ms |
| FloodRuns.RconShare | proxy/patch.c:516-533 | A burst of five rcon attempts, then one per 2000 ms, per address that keeps its bucket |
| FloodRuns.RconShareWithRoom | proxy/patch.c:516-533 | With at most 64 addresses in play that holds without the eviction condition |
| FloodRuns.LogAccountsForDrops | proxy/patch.c:412-420 | For each of the three counters: printed counts plus the pending counter equal all drops, in any interleaving |
| FloodRuns.LogIsThrottled | proxy/patch.c:415-419 | In any T ms a counter prints at most 1 + T/5001 lines, whatever came before |
| FloodService.RatesAre | proxy/patch.c:346-358 | The rates are the cvars', at most 1000, by default 1 and 1000; a burst per address is ten times its rate |
| FloodService.RatesAreRecent | proxy/patch.c:348-358 | A remote packet is judged by rates read less than 5000 ms ago or read now |
| FloodService.BurstIsServed | proxy/patch.c:385-402 | From start-up, of any number of packets an address sends at once exactly 10*rate pass, or as many as the aggregate has room for |
| FloodService.AggregateIsServed | proxy/patch.c:397-401 | From start-up, of packets of many addresses at once exactly the aggregate rate passes |
| FloodService.StreamIsServed | proxy/patch.c:393-401 | From start-up an address that sends alone, one packet in 1000/rate ms of either rate, loses none, for ever |
| FloodService.RconBurstIsServed | proxy/patch.c:516-533 | From start-up exactly five of any number of rcon attempts at once pass |
| FloodService.RconStreamIsServed | proxy/patch.c:516-533 | One rcon attempt in 2000 ms is never throttled |
| FloodService.DownloadsFollowTheirCvar | proxy/patch.c:476-492 | In any interleaving exactly the download requests that find the cvar zero are stopped |
| FloodService.AllowedDownloadsAreInvisible | proxy/patch.c:476-492 | Those that are allowed leave no trace in the state |
| FloodService.DropsAreLoggedWhenDue | proxy/patch.c:415-419 | After any run a drop is printed iff more than 5000 ms have passed since the last line of its kind |
| FloodService.LogAccountsFromStart | proxy/patch.c:412-420 | From start-up the counts printed and the count pending add up to the drops |
| OpcodeTable.TableIsShaped | proxy/table32.h:41-77 | The shipped table keeps every two-level lookup inside its section and yields only eleven operand-flag bytes |
| Decoder.ReadPrefixes | proxy/hde32.c:24-54 | The prefix loop: at most sixteen bytes tried, each prefix recorded |
| Decoder.ReadOpcode | proxy/hde32.c:56-93 | The opcode section: escape byte, operand-size quirk of 0xa0-0xa3, forbidden prefixes |
| Decoder.ScanLockTable | proxy/hde32.c:131-141 | The pair-wise scan of the lock table ends exactly on its end |
| Decoder.ScanMemTable | proxy/hde32.c:183-189 | The triple-wise scan of the memory-only table ends exactly on its end |
| Decoder.CheckOperand | proxy/hde32.c:144-206 | The operand-validity decision with its gotos |
| Decoder.Validate | proxy/hde32.c:102-210 | The three kinds of ModRM fault, in order |
| Decoder.ReadAddressing | proxy/hde32.c:212-264 | SIB byte and displacement, with the one-byte look-ahead taken back |
| Decoder.ReadModRm | proxy/hde32.c:95-266 | The whole ModRM section |
| Decoder.Disasm | proxy/hde32.c:17-325 | The decoder returns the specified record for every byte stream |
| DecoderTheory.EntryFlags | proxy/hde32.c:71-87 | Every opcode's flag byte is one of eleven |
| DecoderTheory.LengthIsAccounted | proxy/hde32.c:17-325 | Lengths lie in 1..15, the byte cast loses nothing, and an uncut length is exactly prefixes + opcode bytes + what the MODRM, SIB, DISP and IMM flags say |
| DecoderTheory.DecodeIsLocal | proxy/hde32.c:17-325 | If a stream decodes to length L without a length error, any stream agreeing on its first L bytes decodes to the same record |
| DecoderTheory.NoProperPrefix | proxy/hde32.c:17-325 | No instruction is a proper prefix of another |
| RecordMeaning.PrefixesAreRecorded | proxy/hde32.c:24-63 | The prefix fields and flags say which prefix bytes precede the opcode, and the opcode fields are the byte behind them, two behind 0x0f |
| RecordMeaning.AddressIsRecorded | proxy/hde32.c:71-266 | ModRM, SIB and each displacement size are there exactly for the stated values of mod, rm, base and address size, with the bytes that follow; each fault is reported exactly under its stated rule |
| RecordMeaning.ImmediatesAreRecorded | proxy/hde32.c:268-315 | Each immediate flag is set exactly for the stated bits of the operand byte and the operand size, and the unions hold the bytes that end the instruction |
| HookLength.HookLenOk | proxy/patch.c:182-192 | The loop accepts exactly the lengths the specification tiles |
| HookLength.AcceptedIsBoundary | proxy/patch.c:182-192 | A length is accepted iff some instruction of the error-free decode sequence ends there |
| HookLength.BoundariesCompose | proxy/patch.c:182-192 | After an accepted a, a+b is accepted iff b is accepted from there |
| HookLength.CopyTiles | proxy/patch.c:182-192 | An accepted prefix is accepted wherever it is copied, whatever follows it |
| CodeHooks.Process.PatchBytes | proxy/patch.c:31-37 | Writes all bytes or, on any failure, none |
| CodeHooks.Process.HookJumpN | proxy/patch.c:39-73 | Success exactly under the stated conditions; then trampoline and target hold the specified bytes; on failure nothing mapped has changed |
| CodeHooks.Process.HookJumpAbs | proxy/patch.c:81-113 | The same for the absolute form |
| CodeHooks.Process.HookAuto | proxy/patch.c:194-203 | The relative form when it reaches, else the absolute one when six bytes are available |
| CodeHooks.RelAlwaysReaches32 | proxy/patch.c:197-199 | With 32-bit pointers the range test always succeeds |
| Machine.PrefixRunsAlike | proxy/patch.c:53-53 | An accepted straight-line prefix and its copy run from equal registers to equal registers in equally many steps |
| Machine.JmpRelArrives | proxy/patch.c:61-68 | The rel32 jump arrives for every pair of 32-bit addresses, wraparound included |
| Machine.PushRetArrives | proxy/patch.c:80-107 | push/ret arrives with the stack pointer restored and only the dead slot below it changed |
| Machine.MovJmpArrives | proxy/patch.c:96-100 | mov eax/jmp eax arrives with only eax changed |
| Machine.RelativeHookPreserves | proxy/patch.c:39-73 | Running the trampoline equals running the original prefix and going on behind it; running the patched target enters the detour |
| Machine.AbsoluteHookPreserves | proxy/patch.c:75-113 | The same for the absolute form, modulo eax and the dead stack slot |
| HookInventory.Inventory.TrackHook | proxy/patch.c:131-139 | Saves the original bytes of at most eight targets of at most eight bytes |
| HookInventory.Inventory.HookArmed | proxy/patch.c:151-170 | The first record of that name decides |
| HookInventory.Inventory.RemoveHooks | proxy/patch.c:144-148 | Writes every saved prefix back, in order |
| HookInventory.Inventory.PlantHook | proxy/patch.c:559-579 | Length check, tracking, planting and read-back as one transition of the inventory |
| HookInventory.ReadBackIsExact | proxy/patch.c:157-166 | The read-back accepts exactly the bytes of the two planted jumps to that detour |
| HookInventory.ConfirmedIffTracked | proxy/patch.c:570-573 | A hook that was planted is confirmed iff it was tracked |
| HookRuns.FirstRecordDecides | proxy/patch.c:151-170 | A hook is reported armed iff the first record of its name points to a jump to the detour |
| HookRuns.PlantsIff | proxy/patch.c:194-203 | A call plants iff the target is known, the length ends an instruction in 5..64 (6..64 where the relative jump does not reach), and the kernel grants region and write |
| HookRuns.SavedIff | proxy/patch.c:131-139 | A record is made iff the prefix has 1 to 8 bytes and fewer than eight records exist |
| HookRuns.PatchInPlain | proxy/patch.c:61-68 | A planted hook is a jump opcode and, behind the jump, NOPs only |
| HookRuns.AbsolutePatchInPlain | proxy/patch.c:102-107 | The absolute form is push, ret and NOPs |
| HookRuns.LittleEndian | proxy/patch.c:61-68 | Operands lie in memory low byte first |
| HookRuns.RelReaches64Iff | proxy/patch.c:197-199 | With 64-bit pointers the range test accepts exactly signed 32-bit distances from behind the jump |
| HookInventory.PlantedHookPreserves | proxy/patch.c:559-579 | End to end on the 32-bit build: a planted hook redirects the target and its trampoline still is the original function |
| HookRuns.EveryHookWorks | proxy/patch.c:559-579 | After any sequence of successful and failed plants on disjoint targets, each planted hook still redirects its target and its trampoline still is the original function |
| HookRuns.RemoveHooksRestores | proxy/patch.c:141-148 | After any such sequence removal, every write succeeding, gives saved targets their original bytes, leaves unsaved hooks as they are and the rest of the image untouched |
| HookRuns.RestoresAllIff | proxy/patch.c:131-148 | The whole image is restored iff every planted hook was saved (at most eight bytes, a record free) or had changed nothing |
| HookRuns.ArmedCount | proxy/patch.c:559-579 | With distinct names, the hooks reported armed are exactly those that were planted and saved |
| HookRuns.TriedCount | proxy/patch.c:559-564 | The number reported as tried is that of the calls whose target was found |
| HookRuns.StartupReportsTheShortOnes | proxy/patch.c:600-625 | With prefixes 9, 6, 6 and 9 the number reported armed is that of the planted short ones, at most two of four |
| Startup.LongHookStays | proxy/patch.c:131-148 | A nine-byte hook on the recorded prologue is planted, not reported armed, and still there after removal |
| Startup.PrologueHookWorks | proxy/patch.c:559-579 | A hook on a recorded prologue redirects, and its trampoline is the original function, whatever else is planted |
| Prologues.ShippedTableHasRows | proxy/table32.h:41-77 | The rows of the prologue opcodes in the shipped table |
| Prologues.SmallFrame | proxy/patch.c:292-293 | The prologue 55 8B EC 83 EC takes a prefix of 6, and 5 would split an instruction, whatever follows; the prefix is straight-line code |
| Prologues.LargeFrame | proxy/patch.c:508-513 | The prologue 55 8B EC 81 EC takes a prefix of 9, and not of 5; it is straight-line code |
| Prologues.ClassLookup | proxy/patch.c:229-236 | The prologue 57 56 53 8B 15 takes a prefix of 9, and not of 5; it is straight-line code |
| CStrings.RunStrCasePrefix | proxy/proxy.c:343-353 | The loop decides whether the text starts with the first n characters of the literal, up to case |
| CStrings.PrefixMeaning | proxy/proxy.c:343-353 | The prefix test is a case-insensitive prefix test |
| CStrings.RunStrCaseEq | proxy/proxy.c:381-391 | The loop decides whether the text equals the first n characters of the literal, up to case |
| CStrings.EqMeaning | proxy/proxy.c:381-391 | The equality test is case-insensitive equality with the first n characters of the literal |
| CharClasses.LowerMeans | proxy/proxy.c:343-391 | Case is folded for the 26 letters and nothing else |
| CharClasses.TokenCharsMean | proxy/proxy.c:304-311 | Token characters are letters, digits, underscore and hyphen |
| CharClasses.PathCharsMean | proxy/proxy.c:332-342 | Paths have these, slashes and dots, and no step up |
| CharClasses.MapCharsMean | proxy/proxy.c:312-323 | Map names likewise, and are not two dots |
| CharClasses.NumberCharsMean | proxy/proxy.c:324-331 | Number characters are digits, signs, dots, blanks and tabs |
| InfoString.InfoValue | proxy/proxy.c:488-523 | The reader returns the value of the first pair with that key, cut to the buffer, or an empty buffer |
| InfoString.CopyPairs | proxy/proxy.c:533-562 | The copy loop keeps the other pairs, in order |
| InfoString.InfoSet | proxy/proxy.c:524-574 | The in-place rewriter leaves the specified text |
| InfoTheory.ParsePrint | proxy/proxy.c:494-521 | Every list of backslash-free pairs survives printing and parsing |
| InfoTheory.PairsInPlain | proxy/proxy.c:488-523 | Keys and values alternate behind backslashes, the first of equal keys counts whatever its case, an incomplete tail does not |
| InfoTheory.SetInNumbers | proxy/proxy.c:524-574 | Texts below 2047 characters are rewritten as lists, and the new pair is kept iff all stays below 2047 and one below the buffer |
| InfoTheory.SetRefinesUpdate | proxy/proxy.c:524-574 | Parsing the rewritten text gives the old pairs minus all case-insensitive matches, in order, plus the new pair; for malformed tails and duplicate keys too |
| InfoTheory.GetAfterSet | proxy/proxy.c:488-574 | Get after set returns the value; every other key reads as before |
| NameCleaner.KeepCharacters | proxy/proxy.c:588-603 | The main loop keeps the specified characters, and its colour counter is zero only if it kept none |
| NameCleaner.CleanName | proxy/proxy.c:584-607 | The buffer ends up with the specified name |
| NameCleaner.CleanShape | proxy/proxy.c:584-607 | 1 to 63 characters, no stripped byte, all from the input unless the fallback was needed |
| NameCleaner.CleanFixedPoints | proxy/proxy.c:584-607 | A name is left alone iff it is tidy |
| NameCleaner.CleanIdempotent | proxy/proxy.c:584-607 | Idempotent on inputs free of stripped bytes |
| NameCleaner.CleanTwiceIsTidy | proxy/proxy.c:584-607 | For every input the third application equals the second |
| NameCleaner.CleanOnceMayNotSuffice | proxy/proxy.c:587-590 | One application need not reach the fixed point: an input where it does not |
| NameCleaner.CleanOnceSufficesIff | proxy/proxy.c:584-607 | It does iff, behind the leading blanks and asterisks, the first surviving character is neither of these and no run of three survives by being interrupted within the 63 kept |
| NameTheory.CleanIsWanted | proxy/proxy.c:588-592 | No byte of a cleaned name is below 0x20 or one of 81 8D 8F 90 9D A0 AD |
| NameTheory.PlainNamesKeepTheirBytes | proxy/proxy.c:584-607 | A name without blanks, asterisks and at-signs keeps the first 63 of its other bytes, or becomes Padawan |
| NameTheory.LeadIsSkipped | proxy/proxy.c:587-587 | Leading blanks and asterisks go |
| NameTheory.RunsAreShortened | proxy/proxy.c:593-598 | A run of one byte keeps its length, of blanks and at-signs only two |
| NameTheory.UnwantedVanishes | proxy/proxy.c:588-592 | A stripped byte is as if it were not there |
| NameTheory.TidyMeans | proxy/proxy.c:584-607 | The names left alone, character by character |
| Userinfo.ForceBad | proxy/proxy.c:626-641 | The loop decides the declarative rule for force powers |
| Userinfo.Examine | proxy/proxy.c:613-672 | What each key's checks decide |
| Userinfo.SanitizeField | proxy/proxy.c:647-650 | One key's turn on the buffer: read, judge, rewrite |
| Userinfo.SanitizeUserinfo | proxy/proxy.c:609-674 | The return code, the buffer and the kick reason |
| Userinfo.UserinfoChanged | proxy/proxy.c:713-734 | Drop, kick or forward, and what is written back |
| UserinfoTheory.EditHasRoom | proxy/proxy.c:553-565 | No fit guard of the rewriter ever discards a pair the sanitiser writes |
| UserinfoTheory.SanitizedIsAcceptable | proxy/proxy.c:609-674 | Afterwards each of the six keys is absent or obeys its rule |
| UserinfoTheory.SanitizeFrame | proxy/proxy.c:609-674 | Every other key reads as before; the text grows by at most 3 + 22 + 7 |
| UserinfoTheory.CleanIsUntouched | proxy/proxy.c:609-674 | The first pass returns 0 and leaves the text alone iff each of the six keys is absent or its whole value obeys the rule |
| UserinfoTheory.TwoPassesSettle | proxy/proxy.c:609-674 | If the first pass does not kick, the third returns 0 and leaves the text identical |
| UserinfoTheory.ForwardedIsAcceptable | proxy/proxy.c:713-734 | What reaches the game is within the rules, at most 1055 characters, and unchanged unless written back |
| UserinfoTheory.BannedMeaning | proxy/proxy.c:615-619 | The signature check matches exactly the twelve-letter word, in any case, and so not the thirteen-letter one it spells |
| UserinfoRules.ModelRule | proxy/proxy.c:620-623 | A model is accepted iff it has at most 63 printable characters and is none of four names, in any case |
| UserinfoRules.ForceRule | proxy/proxy.c:626-641 | Force powers are accepted iff they are three fields of digits joined by dashes, 22 to 24 characters, the second dash at most sixth |
| UserinfoRules.ClassRule | proxy/proxy.c:655-660 | A siege class is accepted iff it has at most 63 token characters |
| UserinfoRules.SaberRule | proxy/proxy.c:661-672 | A saber is accepted iff it has at most 63 path characters and no step up |
| UserinfoRules.ReturnCodeMeans | proxy/proxy.c:609-674 | -1 iff the model has the signature, else 0 or 1 as all keys obey or not |
| UserinfoRules.WhatIsWritten | proxy/proxy.c:609-674 | Each key afterwards: its value if that obeys, else kyle, the default powers, the cleaned name, or nothing |
| UserinfoRules.ReactionMeans | proxy/proxy.c:713-734 | Dropped iff empty or over 1023 characters, kicked iff -1, else forwarded, and written back iff 1 |
| CommandFilter.JoinArgs | proxy/proxy.c:459-472 | The buffer holds exactly the first 1023 characters of the space-joined tokens, each cut at 255 |
| CommandFilter.RunVanillaBlock | proxy/proxy.c:392-449 | The base-game policy |
| CommandFilter.ShouldBlockClientCommand | proxy/proxy.c:452-476 | The filter decides as specified |
| CommandTheory.CopiesCoincide | proxy/proxy.c:453-471 | With one argument of at most 64 characters the 127- and 255-character copies and the token itself are equal |
| CommandTheory.AllowedIsInert | proxy/proxy.c:355-449 | An allowed command other than amrename shows the filter no line break, and a semicolon only in chat, login and rename commands |
| CommandTheory.AllowedRenameIsInert | proxy/proxy.c:365-366 | The first argument of an allowed amrename, all of it, has 1 to 64 characters, no line break and no semicolon |
| CommandTheory.AllowedSinkIsOneToken | proxy/proxy.c:359-362 | An allowed amvstr or ammap has exactly one argument, and the whole of it is a short sanitised token |
| CommandTheory.AllowedIsShort | proxy/proxy.c:355-449 | The whole of an allowed command exceeds the size of its class by at most what was hidden from the filter, and of sinks and logins nothing is |
| CommandTheory.SeesWholeIff | proxy/proxy.c:459-472 | The filter sees the whole command iff every argument has at most 255 characters and all joined at most 1023 |
| CommandTheory.WholeIsSeenOrHidden | proxy/proxy.c:459-472 | The whole command consists of what the filter sees and of what is cut off behind position 255 of a token or 1023 of the join, character by character and in length |
| CommandTheory.AllowedWholeIsInert | proxy/proxy.c:452-476 | The whole of an allowed command other than amrename has a line break iff a hidden part has one; outside chat, login and rename the same for semicolons |
| CommandTheory.LongSayPasses | proxy/proxy.c:459-472 | A chat line longer than 255 characters passes on its first 255 alone: a family of inputs whose line breaks get through |
| CommandTheory.SaberDroidMeaning | proxy/proxy.c:415-417 | The npc name check matches exactly saber_droi, in any case |
| CommandPolicy.AtolOfDecimal | proxy/proxy.c:404-446 | The number read from blanks, a sign and decimal digits is that number, cut to 32 bits, whatever follows |
| CommandPolicy.AtolOfText | proxy/proxy.c:404-446 | A text without a number reads as zero |
| CommandPolicy.AdminPolicy | proxy/proxy.c:355-377 | For each class of JA+ command, exactly what lets it through, in characters and lengths |
| CommandPolicy.BasePolicy | proxy/proxy.c:392-449 | For each command of the base game, exactly what lets it through; and who is kicked |
| CommandPolicy.NumbersAreKept | proxy/proxy.c:404-446 | An allowed gc with a decimal argument names a client; an allowed vote with one keeps its limits |

## Left out

- FloodRuns.AddressShare: holds for an address whose bucket is not evicted in the window, because eviction really does forgive (EvictionForgives).
- FloodRuns.AggregateBound: the two rate cvars are the same throughout the window; it starts from any state, so windows before and after a change are covered.
- FloodGuard.Guard.DetourConnless: the clock is a nonnegative, nondecreasing input and its wrap-around at 2^31 ms is not modelled; nor is that of the three drop counters.
- Machine.RelativeHookPreserves: code and data memory are separate and the stack is a map of dwords, so prefixes that modify code or overlap stack slots are outside the model; ordinary instructions are an arbitrary function of their bytes and the registers.
- Machine.AbsoluteHookPreserves: the same.
- Decoder.Disasm: the opcode table is data; that each row agrees with the processor manual is not proved. The word of flags is modelled by its bits.
- HookInventory.Inventory.PlantHook: hook names are never null, and log lines are left out.
- InfoString.InfoValue: the null-pointer arguments of the C functions are not modelled; nor are those of InfoSet and UserinfoLooksEvil.
- CommandFilter.RunVanillaBlock: the announcement sent when a client is kicked is a flag in the result.
- UserinfoTheory.TwoPassesSettle: stated for texts of at most 1023 characters, which is what the caller admits (UserinfoLooksEvil).
- `ResolveTarget`, `ResolveEngineAbs`, `FindTarget`, `Detour_SiegeFind`: byte comparisons and range tests settled by reading one body.
- `Proxy_Syscall` and the client-begin range test: each branch stands alone.
- `LoadReal`, `TryAdoptReal`, `ModuleBase`, `MakeWritable`, `dllEntry`: dynamic loading and page protection; only success or failure of a write is modelled.
- `japm/`: process control, sockets and templates.
