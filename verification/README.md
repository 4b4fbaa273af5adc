# NeoHook: verified models of its protocols and code transformations

NeoHook patches live code in a multi-threaded Windows process. This project models
the parts of it that are hard to get right and proves what they promise, in Dafny:

- **INT3 breakpoints.** `Int3Protocol` is a state machine whose steps are the single
  atomic loads and stores of `arm`, `remove`, `forget`, the vectored handler and the
  in-flight check, interleaved in any order over any number of threads. `Int3Safety`
  proves its invariant over every run and from it what a trapped thread is answered;
  `Int3Hazards` says which steps can cost it the right answer, and `Int3InFlight` proves
  when the handler stays registered. `Int3Runs` follows whole
  operations through the protocol, and `Int3Race` uses them to show that every hypothesis
  is needed. `Int3Table` is the table as the program holds it, changed in place, and
  `Int3Refinement` ties the two together.
- **Reclamation.** `ReclaimPass` is the freeze/inspect/catch-up/free pass against threads
  that run, spawn and exit between any two of its steps; `ReclaimRuns` says why a pass keeps
  a region and what one in which nothing goes wrong frees. `StackScan` holds the methods
  that read a suspended thread. `FreezeLock` is the re-entrant lock around passes.
- **Delay hooks.** `DelayManager` runs the manager against a loader that loads images,
  announces their unload, unmaps them and reloads others in their place;
  `DelayRegistration` and `DelayRegistrationRuns` are the lock-free cookie and flag protocol; `DelayTable` is the
  manager's own data, changed in place, and `DelayRefinement` ties it to the runs.
- **Relocation.** `Relocator` and `RelocatorSim` simulate the stolen block by its copy in
  the trampoline, over arbitrary instruction semantics; `Disassembler` builds the copy;
  `InstructionLen` decides how much is stolen.
- **Mid-hooks.** `StubMachine` is a small x64 machine, `StubCode` its machine code
  and `X64Decoder` a decoder that reads every field of it, `MidHookStub` and `MidHookBridge` the effect of the stub around an arbitrary
  handler, `MidHookUnwind` and `MidHookBoundary` the unwind codes (`UNWIND_CODE` of
  Microsoft's "x64 exception handling"), `MidHookBuild` the method that emits both.
- **Arithmetic and refinement cores.** `NearAlloc` (placement near a target),
  `PageWrites` (page-batched writes), `DiskImage` (windowed base relocation, the ".reloc
  Section (Image Only)" of Microsoft's PE Format), `Imports` (two walks in step), `ImportLayout`
  (what they read of a directory laid out in bytes) and `Thunks` (jump following). `Options` and `LittleEndian` hold what several modules share.

Some properties one would expect turn out to be false, and the project says when they
hold instead:

- A delay hook whose image is gone can survive the next `lock_manager`, in three ways.
  The image is replaced at its base while no notification is registered, and the flag
  claims one again before the manager is locked (`DelayManager.SilentReloadIsMissed`; the
  comment at `src/delay.rs:388-393` covers the time without a notification, not the moment
  it comes back). Or the notification finds the lock busy and raises the missed flag, and
  the next lock takes the flag while the image is still mapped, so it finds nothing amiss
  (`DelayManager.EarlyNoticeIsSwallowed`). Or the hook is installed into an image whose
  unload was already announced (`DelayManager.LateInstallIsMissed`). In each case the next
  lock trusts the notification and does not look at the byte.
  `DelayManager.StaleHookDoesNotSurvive` shows that these are all the exceptions, and
  `DelayManager.StaleHookFate` states for the whole call exactly when a stale hook is
  dropped: if its base was not mapped when it was checked, or if the byte was looked at.
- With no call in progress a live unload notification can stand without its flag, and no
  later registration raises it again (`DelayRegistrationRuns.LiveButUnflagged`; the comment
  at `src/delay.rs:388-393` lets the next register restore things, but it returns at the
  cookie it finds). `DelayRegistrationRuns.FlagCanBeLostIff` states exactly when the flag
  can be lost. Validation then looks at every byte, so this costs time, not safety.
- Resolving a thunk chain twice can go further than resolving it once:
  `Thunks.LongChainIsNotSettled` has a chain longer than the 32 follows.
  `Thunks.ResolvingTwice` states exactly for which pointers a second resolution changes
  nothing: those whose chain, within 32 follows, reaches code or a cycle of at most 32.
- The handler can be gone while a thread is still dispatching a trap. The in-flight check
  knows a trap by its address: that of a live hook, or one in the ring
  (`src/int3.rs:477-482`). So it does not await a trap whose target was forgotten and not
  hooked and removed since (`Int3Race.ForgottenTrapIsNotAwaited`), one whose removal the
  ring has dropped after 1024 others (`Int3Race.OverrunTrapIsNotAwaited`), or one taken on
  a 0xCC that no hook wrote or that could not be taken back, if the ring was wiped before
  (`Int3Race.LeftoverTrapIsNotAwaited`) or the check had passed the thread over before it
  trapped (`Int3Race.OverlookedTrapIsNotAwaited`).
  `Int3InFlight.KnownTrapKeepsHandler` proves that these are all: from the moment a thread
  is trapped at a known address, at which no check under way has passed it over, the
  handler stays until the trap is answered or its address forgotten or dropped. A failed
  restoring write alone does not end that.

Shared conventions: addresses and register values are unbounded integers, with wrap-around
written out where the program relies on it; Windows calls and the iced decoder and encoder
are parameters under contracts; acquire/release atomics are sequentially consistent.

`dafny verify dfyconfig.toml` checks the whole project.

## Model

| member | source | states |
|---|---|---|
| `Int3Safety.TrapIsNeverPassedOn` | src/int3.rs:408-459 | in every reachable state a trapped thread that is passed on met a hazard: foreign 0xCC, `forget`, slot reuse between the two loads, 1024 later removals, or an unhook between the byte read and the re-scan |
| `Int3Safety.AnswerIsRight` | src/int3.rs:408-459 | without a hazard the handler's answer is the detour given for the trapped address, also while that hook is being armed, rolled back or taken down, or a re-run of the byte the hook had overwritten; never "search on" |
| `Int3Hazards.HazardsAreMet` | src/int3.rs:246-384 | a trapped thread is marked with a hazard exactly by the step that brings it: a failed restoring write of its byte, its `forget`, a new detour in the slot it has matched, a removal that takes its own's place in the ring, its slot cleared during its second scan |
| `Int3Hazards.FreshTrapIsClean` | src/int3.rs:408-420 | a trap starts without hazard exactly if a live hook wrote the 0xCC |
| `Int3Hazards.PassedOnHasCause` | src/int3.rs:408-459 | over every run, a thread that trapped on our byte is passed on only if one of these steps came in between |
| `Int3Safety.LoadMakesProgress` | src/int3.rs:408-459 | every load of the handler strictly lowers a bound on the loads left, so it answers |
| `Int3Safety.OthersDoNotDelay` | src/int3.rs:246-367 | no step of another thread, an installer or an unhooker sets a trapped thread back |
| `Int3InFlight.HandlerOutlivesTraps` | src/int3.rs:469-498 | in every reachable state the vectored handler is registered while a slot is armed, while a thread that no check has passed over is trapped at an address that is hooked or in the ring, and while a thread is dispatching a trap of a hook that is live or whose removal the ring holds, whatever befell it, a failed restoring write included |
| `Int3InFlight.KnownTrapKeepsHandler` | src/int3.rs:476-498 | from the moment a thread is trapped at an address that is hooked or in the ring, with no check having passed it over, and whatever byte it trapped on, the handler stays over every run in which the trap is not answered and no `forget` or removal takes the address out of both |
| `Int3InFlight.InspectRulesOut` | src/inflight.rs:82-130 | a thread that the check lets pass is dispatching no trap that the ring or a hook knows |
| `Int3InFlight.KeptByTraps` | src/int3.rs:469-498 | a thread that traps at a known address is awaited from then on, unless a check has passed it over already; on the byte of a live hook it never has, so one snapshot of the threads is enough |
| `Int3InFlight.TrackedByRemoval` | src/int3.rs:353-363 | the ring store makes the check know the traps of its target, and the restoring write, done or failed, loses none of them |
| `Int3Race.ForgottenTrapIsNotAwaited` | src/int3.rs:476-493 | a reachable run that unregisters the handler while a trap of a forgotten target is in flight |
| `Int3Race.OverrunTrapIsNotAwaited` | src/int3.rs:476-493 | the same for a trap whose removal the ring has dropped |
| `Int3Race.LeftoverTrapIsNotAwaited` | src/int3.rs:361-363 | the same for a trap on a byte that could not be restored, taken after the ring was wiped |
| `Int3Race.OverlookedTrapIsNotAwaited` | src/int3.rs:483-493 | the same for a trap on such a byte taken between the check and the unregistration, while the ring still has the address |
| `Int3Safety.MemoryIsCodePlusHooks` | src/int3.rs:246-367 | after any run memory is the code with 0xCC at exactly the hooked targets, every saved byte is the original one, and hooks share no slot |
| `Int3Safety.RunKeepsInv` | src/int3.rs:246-367 | every run of installs, failed installs, unhooks, releases, traps, handler loads, spawns and exits keeps the protocol invariant |
| `Int3Safety.KeptByLogRemoval` | src/int3.rs:353-359 | the ring store keeps every trapped thread findable, or counts it as overrun |
| `Int3Safety.KeptByRemoveHandler` | src/int3.rs:483-493 | unregistering keeps the invariant: the one-snapshot check left no trap of ours in flight |
| `Int3Safety.KeptByPatchByte` | src/int3.rs:288-304 | the byte write, or its failure, keeps the invariant |
| `Int3Safety.KeptByForget` | src/int3.rs:379-384 | `forget`, which takes no lock, keeps the invariant at any moment |
| `Int3Race.WindowRaceLosesATrap` | src/int3.rs:438-456 | a reachable run in which a trap is passed on and the only hazard is an unhook between the byte read and the re-scan |
| `Int3Race.ForgottenTrapIsLost` | src/int3.rs:379-384 | the same with a forgotten target as the only hazard |
| `Int3Race.FailedRestoreLosesATrap` | src/int3.rs:361-363 | the same with a failed restoring write as the only hazard |
| `Int3Race.RingOverrunLosesATrap` | src/int3.rs:353-359 | the same with 1024 later removals as the only hazard |
| `Int3Race.ReusedSlotMisleads` | src/int3.rs:513-520 | a reachable run in which a slot reused between the two loads sends the thread to the detour of another address |
| `Int3Runs.ArmRun` | src/int3.rs:246-314 | an undisturbed `arm` takes the first free slot, publishes the detour, patches the byte and saves it |
| `Int3Runs.RemoveRun` | src/int3.rs:343-367 | an undisturbed `remove` with another hook live restores the byte, frees the slot, logs the target and keeps the handler |
| `Int3Runs.ReleaseRun` | src/int3.rs:469-498 | with no slot armed and nothing looking busy, the handler goes and the ring is wiped |
| `Int3Runs.RemoveUndoesArm` | src/int3.rs:246-367 | removing what was just armed gives back slots, memory and hooks |
| `Int3Refinement.ArmRefines` | src/int3.rs:246-314 | from every reachable state in which `arm` finds its target free and a free slot, a run of the protocol changes the table as a successful `Table.Arm` does |
| `Int3Refinement.ArmRejectionRefines` | src/int3.rs:264-283 | if the target is hooked, the table is full or the handler cannot be registered, a run leaves the table as it was, as `Table.Arm` does |
| `Int3Refinement.ArmFailureRefines` | src/int3.rs:285-305 | if the byte cannot be written, a run takes the publication back and releases an idle handler exactly if a check is clear, as `Table.Arm` does |
| `Int3Refinement.RemoveRefines` | src/int3.rs:343-367 | a run changes the table as `Table.Remove` does, whether or not the byte can be restored, other hooks are left, or one of the five checks is clear |
| `Int3Refinement.ReleaseRefines` | src/int3.rs:469-504 | so does one that only sees to the handler, as `Table.Release` does |
| `Int3Refinement.ForgetRefines` | src/int3.rs:379-384 | a `forget` at any moment does to the protocol's table what `Table.Forget` does |
| `Int3Table.Table.constructor` | src/int3.rs:69-97 | an empty table over unhooked memory |
| `Int3Table.Table.Arm` | src/int3.rs:246-314 | succeeds exactly if nothing covers the target, a slot is free, the handler is or can be registered and the byte can be written; then the first free slot is taken, memory gains one 0xCC and the hook saves the byte there. Each error comes exactly under its cause and leaves memory and hooks as they were; a failed byte write also takes the slot's publication back and releases an idle handler, the others leave the whole table alone |
| `Int3Table.Table.Patch` | src/int3.rs:285-305 | the publication and the byte write, taken back when the write fails |
| `Int3Table.Table.Remove` | src/int3.rs:343-367 | exactly the hook's byte is restored and its slot freed, and the handler goes if nothing is left and a check is clear; while it stays, the target is in the ring; a failed write leaves a 0xCC that no hook owns |
| `Int3Table.Table.Forget` | src/int3.rs:379-384 | only the slot's target is cleared; ring, detours and handler stay |
| `Int3Table.Table.FindDetour` | src/int3.rs:513-520 | the detour of the live hook at the address, `None` exactly if there is none |
| `Int3Table.Table.Handle` | src/int3.rs:408-459 | undisturbed, a live target goes to its detour, a retired one with its byte back re-runs, anything else is passed on |
| `Int3Table.Table.Release` | src/int3.rs:469-498 | the handler goes exactly when no slot is armed and one of five checks finds nothing in flight, and then the ring is wiped |
| `Int3Table.Table.Scan` | src/int3.rs:264-274 | finds the target if it is hooked, else the first free slot |
| `ReclaimPass.FreedIsUnreferenced` | src/reclaim.rs:177-259 | a region about to be freed is referenced by no live thread but the one running the pass, whenever that thread was created |
| `ReclaimPass.KeptIsReferenced` | src/reclaim.rs:228-249 | a pass that inspected every thread keeps only regions some other thread references |
| `ReclaimRuns.KeptHasCause` | src/reclaim.rs:177-259 | over every run, a pass keeps a region that no other thread references only if a thread could not be suspended or inspected, four newborn threads were found, or 32 threads beyond the enumerated ones were met; in the first two cases it frees nothing |
| `ReclaimRuns.PassFreesUnreferenced` | src/reclaim.rs:177-259 | from every reachable state a pass in which nothing goes wrong frees exactly what no other thread references and puts the rest back in order |
| `ReclaimRuns.NewbornIsCaughtUp` | src/reclaim.rs:390-470 | a reachable run in which a thread born after the enumeration is caught up with, the region it references is kept and another one freed |
| `ReclaimPass.RegionsAreConserved` | src/reclaim.rs:118-168 | after any run every region was retired as often as it is quarantined, freed and in the pass together |
| `ReclaimPass.WithoutWalkNewbornIsMissed` | src/reclaim.rs:390-470 | without the thread walk there is a run that frees the stub a newborn thread runs in |
| `ReclaimPass.KeptByWalk` | src/reclaim.rs:390-470 | every step of the catch-up walk keeps accounting for the threads it has passed |
| `StackScan.Mark` | src/reclaim.rs:262-268 | marks exactly the regions the address falls inside |
| `StackScan.ScanRegion` | src/reclaim.rs:342-354 | marks every region a word of the range points into, and none without such a word; gives up only on a deep stack |
| `StackScan.ScanStack` | src/reclaim.rs:317-359 | if it completes, the newly marked regions are exactly those an aligned readable word at or above the stack pointer points into; it completes unless a query fails or the stack is deeper than 32 MiB |
| `StackScan.InspectThread` | src/reclaim.rs:273-306 | if it completes, exactly what the instruction pointer, a register or a stack word references is marked; it fails only without a context or where the stack scan does |
| `StackScan.RegionDispatches` | src/inflight.rs:176-201 | finds a matching exception record in the region, or there is none |
| `StackScan.Dispatching` | src/inflight.rs:133-205 | "not dispatching" means the thread is not at a trap and has no matching exception record on its stack; "dispatching" means it is or has, or could not be read in full |
| `FreezeLock.PassesExclude` | src/threads.rs:41-64 | in every interleaving at most one thread is inside a freeze pass |
| `FreezeLock.SuspenderStaysRunning` | src/threads.rs:18-64 | whenever a thread is suspended, the pass that suspended it is running and can resume it |
| `FreezeLock.OwnerIsHolder` | src/threads.rs:37-39 | at every call a thread sees itself as owner exactly if it has the mutex |
| `FreezeLock.EnterNests` | src/threads.rs:37-64 | a thread inside a pass enters again at once, with a guard that holds nothing |
| `FreezeLock.FreeLockIsTaken` | src/threads.rs:41-64 | one that finds the mutex free becomes holder and owner |
| `FreezeLock.BusyLockIsLeft` | src/threads.rs:41-64 | `try_hold_freeze_lock` gives up on a taken mutex and changes nothing |
| `FreezeLock.DropReleasesOnlyLast` | src/threads.rs:28-35 | dropping a nested guard releases nothing; the outermost clears the owner before the mutex |
| `FreezeLock.LastDropFrees` | src/threads.rs:28-35 | dropping the only guard leaves the lock free |
| `FreezeLock.HolderCanGoOn` | src/threads.rs:18-64 | whoever has the mutex is not suspended and can take a step, so nobody waits on a suspended thread |
| `DelayRegistration.FalseClaimIsTransient` | src/delay.rs:394-441 | "flag set, cookie null" holds only while some thread is still due to re-check or clear it |
| `DelayRegistration.CookiesAreOwned` | src/delay.rs:394-441 | every cookie the loader holds is the current one or exactly one thread's to unregister |
| `DelayRegistration.QuiescentStateIsConsistent` | src/delay.rs:394-441 | with no call in progress a raised flag means a live notification, and the loader holds nothing else |
| `DelayRegistrationRuns.RegisterPublishes` | src/delay.rs:394-422 | an undisturbed registration publishes the cookie it was handed and raises the flag |
| `DelayRegistrationRuns.RegisterLeavesAlone` | src/delay.rs:394-409 | one that finds a cookie, or that the loader refuses, changes nothing |
| `DelayRegistrationRuns.RegisterGivesBack` | src/delay.rs:423-426 | one that another has forestalled gives its cookie back |
| `DelayRegistrationRuns.UnregisterTakesBack` | src/delay.rs:429-441 | an undisturbed unregistration takes the cookie and the flag and gives the cookie back |
| `DelayRegistrationRuns.FlagCanBeLostIff` | src/delay.rs:394-441 | while a notification stays registered, its flag, raised or about to be, can be lost exactly if some thread still has to lower it for an earlier cookie |
| `DelayRegistrationRuns.LiveButUnflagged` | src/delay.rs:394-397 | a reachable state with no call in progress, a live notification and no flag, which a registration leaves as it is |
| `DelayManager.StaleHookDoesNotSurvive` | src/delay.rs:318-343 | over every run, a hook whose image was gone when `lock_manager` began is dropped when it returns, unless the call looked at no byte and no notice of the unload was left: none was given, its flag was taken while the image was mapped, or it came before the install |
| `DelayManager.StaleHookFate` | src/delay.rs:318-343 | for the whole call: a hook stale at its start is gone at its end if and only if its base was not mapped around the target when checked or the byte was looked at, which happens exactly if it was mapped and a flag demanded it |
| `DelayManager.ByteCheckLeavesNothingStale` | src/delay.rs:318-333 | a call that found the missed flag up or the notification flag down leaves no hook that was stale when it began |
| `DelayManager.StaleCheckIsExact` | src/delay.rs:338-343 | a stale hook whose base is mapped again is dropped exactly if the byte is looked at |
| `DelayManager.ValidationKeepsIntact` | src/delay.rs:318-343 | validation never drops a hook whose image is still there |
| `DelayManager.UnloadKeepsOthers` | src/delay.rs:459-487 | the unload of one image leaves the hooks in others alone |
| `DelayManager.NoticeIsLostSo` | src/delay.rs:318-343 | a hook's notice is lost exactly by an unload nobody is told of, by taking the missed flag while its image is leaving, or by an install into a leaving image |
| `DelayManager.SilentReloadIsMissed` | src/delay.rs:318-343 | a reachable run in which a hook on an image replaced unannounced outlives `lock_manager` |
| `DelayManager.EarlyNoticeIsSwallowed` | src/delay.rs:318-343 | the same after a notice that found the lock busy and whose flag was taken before the image was unmapped |
| `DelayManager.LateInstallIsMissed` | src/delay.rs:365-373 | the same after an install into an image whose unload was already announced |
| `DelayRefinement.LockRefines` | src/delay.rs:318-343 | a validation in which nothing else happens leaves the list `Manager.Lock` leaves, takes the flag and changes nothing else |
| `DelayRefinement.NotifyRefines` | src/delay.rs:459-487 | a notice leaves the list `Manager.OnUnload` leaves if it finds the lock free, the missed flag if it finds it busy, and the list as it is if nobody is told |
| `DelayRefinement.RegisterRefines` | src/delay.rs:272-284 | a registration appends a request with the next id |
| `DelayRefinement.InstallRefines` | src/delay.rs:287-292 | an install gives one request its hook and writes one 0xCC |
| `DelayRefinement.RemoveRefines` | src/delay.rs:247-254 | a removal leaves the list `Manager.Remove` leaves |
| `DelayRefinement.RemoveUndoesInstall` | src/delay.rs:247-254 | removing what was just installed gives back every byte |
| `DelayRefinement.ReachableIds` | src/delay.rs:274-275 | in every reachable state requests are told apart by their ids |
| `DelayTable.Manager.Lock` | src/delay.rs:318-333 | exactly the hooks that fail `still_installed` are dropped and the missed flag is taken |
| `DelayTable.Manager.OnUnload` | src/delay.rs:459-487 | with the lock free exactly the hooks in the image are dropped; with it busy the unload is flagged and nothing else changes |
| `DelayTable.Manager.Register` | src/delay.rs:272-314 | a new id and a request at the end of the list; each error exactly under its cause, with the list and the `LdrLoadDll` hook as before |
| `DelayTable.Manager.Remove` | src/delay.rs:247-262 | exactly the requests with other ids are left, in order; the hook to take out is that request's; the `LdrLoadDll` hook goes with the last one |
| `DelayTable.RemoveUndoesRegister` | src/delay.rs:247-314 | removing what was just registered leaves the other requests as they were |
| `Relocator.EmulateCall` | src/disasm.rs:281-300 | a call is left alone exactly if it goes outside the stolen range, rejected exactly if it lands in it on no instruction, and otherwise replaced by three instructions of which the first carries its address |
| `Relocator.EmulatedPush` | src/disasm.rs:301-319 | pushing the sign-extended low half and storing the high half pushes the 64-bit return address, for every return address |
| `Relocator.PushedBytes` | src/disasm.rs:301-319 | what a push writes is the 64-bit value, least significant byte first |
| `RelocatorSim.EmulatedSteps` | src/disasm.rs:301-319 | the three instructions push the whole original return address and go to the call's target |
| `RelocatorSim.StepOfEmulatedCall` | src/disasm.rs:281-320 | so they do what the call did, in the copy |
| `RelocatorSim.StepSimulates` | src/disasm.rs:342-448 | one step of an original instruction is one, two or three steps of its copy, with related outcomes |
| `RelocatorSim.RelocationPreservesMeaning` | src/disasm.rs:342-448 | from every stolen instruction and state, the original leaves the block if and only if the copy does, for the same address with the same state up to the return address of an outgoing call |
| `RelocatorSim.CopyStaysOffPatch` | src/disasm.rs:384-399 | the copy never runs into the overwritten bytes exactly if no jump or branch of the block lands inside an instruction |
| `RelocatorSim.BlockHolds` | src/disasm.rs:384-399 | the block holds what was emitted for each instruction at that instruction's index |
| `Disassembler.DecodedIsContiguous` | src/disasm.rs:349-371 | decoded instructions follow each other from the start to the end of the stolen bytes |
| `Disassembler.DecodeBlock` | src/disasm.rs:349-371 | returns what the decoder gives at the offsets that lead from 0 to the end without a gap, and these offsets; fails exactly if an offset reached that way has no valid instruction |
| `Disassembler.DecodedMeetsNoInvalid` | src/disasm.rs:349-371 | bytes that decode to their end meet no invalid instruction: there is one way to go through them |
| `Disassembler.BuildBlock` | src/disasm.rs:373-399 | succeeds exactly if no call is rejected, and returns the block with each copy's index |
| `Disassembler.PickOffsets` | src/disasm.rs:415-432 | the offset of every tracked copy, refused exactly if one was not placed |
| `Disassembler.Plan` | src/disasm.rs:342-432 | a mapping exactly when everything decodes, no call is rejected and every copy is placed |
| `Disassembler.Relocate` | src/disasm.rs:342-448 | the trampoline is written exactly in that case, with the encoded block of what the decoder gave and nothing past it, and the recorded offsets are those of the decoder; otherwise it is untouched |
| `InstructionLen.FurthestDecides` | src/disasm.rs:163-202 | remembering the furthest jump target decides whether a terminator ends the function |
| `InstructionLen.EndsIfNoWayPast` | src/disasm.rs:87-110 | a terminator is an instruction control never gets past; a conditional jump is one it gets past or to the operand |
| `InstructionLen.CoverableIff` | src/disasm.rs:163-202 | an instruction may be covered exactly if it is padding or every one before it can be passed, by itself or by an earlier jump over it inside the window |
| `InstructionLen.WindowSuffices` | src/disasm.rs:128-151 | the window holds every readable instruction that starts before the minimum, and no unreadable byte |
| `InstructionLen.GetInstructionLen` | src/disasm.rs:128-209 | returns n exactly when a run of coverable instructions reaches the minimum inside readable memory; n is its boundary, at most 14 bytes past the minimum, and past a terminator only code jumped to earlier or padding is covered |
| `StubMachine.ByteMemoryIsLawful` | src/midhook.rs:436-574 | little-endian byte memory satisfies the memory laws the stub theorems assume |
| `StubCode.DecodeInvertsEncode` | src/midhook.rs:98-574 | the bytes of any instruction list, decoded field by field (prefix, opcode, ModRM, SIB, displacement, immediate), give that list; a field that does not fit gives none |
| `StubCode.YmmFields` | src/midhook.rs:98-113 | a spill or reload names vector register n, source n for a reload, 256 bits, the upper lane, and the stack pointer plus the displacement |
| `MidHookStub.PrologueEffect` | src/midhook.rs:464-503 | the prologue leaves the block of `HookContext` filled with the entry state, a zero redirect and the site above it, and touches nothing at or above the entry stack pointer |
| `MidHookStub.PushedIsContext` | src/midhook.rs:155-183 | the push order puts every general register at its field of `HookContext` |
| `MidHookStub.OffsetsAreDeclared` | src/midhook.rs:155-183 | the offsets the stub uses are those of the declaration of `HookContext` |
| `MidHookBridge.ContextIsCaptured` | src/midhook.rs:464-518 | at the call the context holds the entry state, rcx points at it, the stack is aligned with shadow space, and the direction flag is clear |
| `MidHookBridge.StubBridges` | src/midhook.rs:436-574 | for every entry state and every handler that keeps the calling convention, the final jump is reached with each register, flags, MXCSR and XMM equal to its context field, YMM halves and rsp as at entry, memory from there up untouched by the stub, and the target the redirect or the gateway |
| `MidHookBridge.UntouchedContextChangesNothing` | src/midhook.rs:436-574 | a handler that edits nothing is invisible, and the gateway is taken |
| `MidHookBridge.ChooseEffect` | src/midhook.rs:531-542 | the redirect slot gets the handler's redirect, or the gateway if that is zero |
| `MidHookBridge.RestoreEffect` | src/midhook.rs:544-574 | the restore half loads every register from the block and jumps through the redirect slot |
| `MidHookUnwind.UnwindUndoes` | src/midhook.rs:576-591 | for any prologue that stores only where it allocated, the codes take rsp back to its start and recover what was saved |
| `MidHookUnwind.UnwindSkips` | src/midhook.rs:576-591 | codes of instructions that have not run are passed over |
| `MidHookUnwind.FrameCodeIsSound` | src/midhook.rs:476-503 | the stub's prologue is such a prologue and saves each register at its context field |
| `MidHookBoundary.PrologueUnwinds` | src/midhook.rs:464-503 | at every instruction boundary from the site store on, the passed codes restore all general registers and leave rsp on the slot holding the hooked address |
| `MidHookBoundary.ApproachUnwinds` | src/midhook.rs:504-518 | the same at every boundary between the prologue and the call |
| `MidHookBoundary.ReturnUnwinds` | src/midhook.rs:518-529 | from the handler's return address to the end of the covered range the codes recover what the context holds by then, and rsp is on the site slot |
| `MidHookBoundary.SlotsDescend` | src/midhook.rs:576-581 | offsets are strictly descending and fit a byte |
| `MidHookBoundary.PrologueSize` | src/midhook.rs:503-503 | the prologue is 221 bytes long |
| `MidHookBuild.EmitPrologue` | src/midhook.rs:436-503 | the emitted bytes and unwind entries are those of the modelled prologue |
| `MidHookBuild.CollectSlots` | src/midhook.rs:576-581 | the entries packed into 16-bit slots, last instruction first |
| `MidHookBuild.BuildStub` | src/midhook.rs:436-592 | the stub is the machine code of the program the theorems are about, with its unwind slots, prologue size, frame register and covered range |
| `MidHookBuild.StubReadsBack` | src/midhook.rs:89-93 | for 64-bit addresses the stub decodes to that program and fits the 1024 bytes reserved |
| `NearAlloc.AlignDown` | src/alloc.rs:170-172 | the largest multiple not above the address |
| `NearAlloc.AlignUp` | src/alloc.rs:164-166 | the smallest multiple not below it |
| `NearAlloc.NeighboursWin` | src/alloc.rs:200-211 | of all aligned points of a range the two around the clamped target are at least as close as any other |
| `NearAlloc.FallbackNeverFires` | src/alloc.rs:213-220 | where neither neighbour fits, the last fallback finds nothing either |
| `NearAlloc.NearestAlignedCandidate` | src/alloc.rs:182-223 | a fitting aligned start closest to the target (the lower on a tie), `None` exactly if none fits |
| `NearAlloc.Candidates` | src/alloc.rs:87-126 | every placement a visited free region offers is matched or beaten by a candidate |
| `NearAlloc.TryAll` | src/alloc.rs:131-150 | the first accepted block is returned and every other block handed out is given back |
| `NearAlloc.AllocNearby` | src/alloc.rs:48-152 | candidates are tried nearest first, the first one nearest of all that visited regions offer; the first accepted block is returned, it lies in the window, and all others handed out are given back; none is returned only if none was accepted |
| `NearAlloc.WalkMissesNothing` | src/alloc.rs:87-126 | where the query describes one layout of the window, the walk visits the region of every address of it |
| `NearAlloc.FirstTryIsNearest` | src/alloc.rs:128-131 | hence no free placement in the window is closer than the first one tried |
| `NearAlloc.WindowReaches` | src/alloc.rs:53-73 | every byte of a block in the window is within rel32 of every site from the target to 1 MiB past it |
| `NearAlloc.WindowIsWide` | src/alloc.rs:53-73 | a block is in the window exactly if it is usable and all of it within rel32 of the target less 1 MiB and its size |
| `PageWrites.AdjustExecute` | src/mem.rs:10-24 | the page keeps its execute permission and gets the requested write permission |
| `PageWrites.BatchesTile` | src/mem.rs:110-123 | batches tile the range without gap or overlap; each has eight pages but the last, which has at most eight |
| `PageWrites.Memory.ProtectPage` | src/mem.rs:35-53 | one page gets the adjusted protection, or nothing changes |
| `PageWrites.Memory.Change` | src/mem.rs:67-91 | all pages of the range are opened and their protections saved, or all are as before if the restoring calls succeed |
| `PageWrites.Memory.Restore` | src/mem.rs:95-103 | exactly the saved pages whose restoring call succeeds get their protections back, and the result says whether all did |
| `PageWrites.Memory.WriteBatch` | src/mem.rs:174-189 | one batch is written to pages that are writable; its protections are as before if the restoring calls succeed |
| `PageWrites.Memory.WritePages` | src/mem.rs:168-190 | success replaces exactly the target bytes and returns the old ones; failure does so for exactly a prefix of whole batches; either way protections are as before if the restoring calls succeed |
| `DiskImage.RawWindow` | src/detect.rs:834-852 | with disjoint sections a raw window is made of the bytes at its addresses |
| `DiskImage.RawByte` | src/detect.rs:834-852 | the byte at an address of a section is the file's where there is one, then 0 |
| `DiskImage.RawEnds` | src/detect.rs:834-845 | outside the sections there is nothing, and a window is cut only at the end of its section |
| `DiskImage.FirstReaching` | src/detect.rs:863-865 | the binary search skips exactly the relocations that end before the window |
| `DiskImage.Read` | src/detect.rs:856-896 | the window is the slice of the image with all relocations applied in order, wherever it starts, so overlapping windows agree |
| `DiskImage.BeyondIsIdle` | src/detect.rs:863-869 | relocations that cannot reach an address do not matter to it |
| `DiskImage.NoDeltaNoChange` | src/detect.rs:859-862 | at the preferred base the relocations change nothing |
| `DiskImage.PointerIsRebased` | src/detect.rs:876-889 | a value of 8 or 4 bytes that points past the preferred base is patched to point as far past the actual one |
| `DiskImage.PointerFollowsBase` | src/detect.rs:856-896 | so where relocated values do not overlap, every pointer of the image reads so at any base |
| `DiskImage.LoaderAgrees` | src/detect.rs:856-896 | where relocated values do not overlap, the result is what a loader gets that relocates memory in place |
| `DiskImage.ParseRelocations` | src/detect.rs:800-818 | the relocations of all blocks up to the first malformed one |
| `DiskImage.TableReadsBack` | src/detect.rs:800-818 | of a table of well-formed blocks exactly the 32- and 64-bit relocations are read, in order, up to the first malformed block |
| `Imports.EnumerateImports` | src/introspect.rs:237-309 | lists the imports of every descriptor up to the first that ends the walk; terminates on every image |
| `Imports.ImportSlots` | src/detect.rs:586-620 | lists the slots of the same descriptors, and fails exactly without a directory or at an unreadable DLL name |
| `Imports.WalksAgree` | src/detect.rs:586-620 | made from the same descriptors the lists are equally long and the i-th import is bound to the content of the i-th slot, 0 if it cannot be read |
| `Imports.ListBoth` | src/detect.rs:540-551 | hence whenever the slots are listed the two lists are in step |
| `ImportLayout.ListLaidOut` | src/introspect.rs:237-309 | of a directory laid out in bytes every import is listed with its DLL, name or ordinal and bound address, and every slot; slots are refused exactly if a DLL name that is no string in the image ends it |
| `ImportLayout.DescriptorsHeld` | src/detect.rs:586-598 | the descriptors read are those laid out, up to the zero descriptor, the end of the image or an unreadable DLL name |
| `ImportLayout.ImportHeld` | src/introspect.rs:274-292 | an entry reads back as its ordinal or its name, with the address in its slot |
| `Thunks.FollowsRel32` | src/code.rs:57-61 | `jmp rel32` is followed to the target it was assembled for |
| `Thunks.FollowsSlot` | src/code.rs:121-147 | `jmp [rip + disp32]` is followed to what its slot holds |
| `Thunks.FollowsR10` | src/code.rs:85-96 | `mov r10, imm64` is followed exactly before `jmp r10` |
| `Thunks.FollowsRel8` | src/code.rs:62-66 | `jmp rel8` is followed forwards and backwards |
| `Thunks.FollowsWideSlot` | src/code.rs:74-77 | `jmp [rip + disp32]` with REX.W is followed to what its slot holds |
| `Thunks.FollowsRax` | src/code.rs:78-82 | `mov rax, imm64` is followed exactly before `jmp rax` |
| `Thunks.FollowsNothingElse` | src/code.rs:53-130 | no other first bytes are followed |
| `Thunks.CodeFromPointer` | src/code.rs:25-51 | the walk meets no address twice and ends after at most 32 follows, at no thunk, at a repeated address or at the bound |
| `Thunks.OneOutcome` | src/code.rs:25-51 | where a walk ends is determined by where it starts |
| `Thunks.ResolvingTwice` | src/code.rs:25-51 | resolving twice gives what resolving once gives exactly if the chain from the pointer reaches code or a cycle of at most 32 within 32 follows; in particular whenever the first walk ended before the bound |
| `Thunks.FixedPointIff` | src/code.rs:25-51 | an address resolves to itself exactly if it is no thunk or its chain returns to it within 32 follows |
| `Thunks.CycleEntry` | src/code.rs:25-51 | on a chain that runs into a cycle the result is the first element of the chain on the cycle |
| `Thunks.LongChainIsNotSettled` | src/code.rs:25-51 | memory in which resolving twice goes further than resolving once, and a pointer outside that condition |

## Left out

- Weak memory: atomics are sequentially consistent in all state machines.
- `transaction.rs`, `unwind.rs`, `veh.rs`, `vtable.rs`, `watchdog.rs`: not part of this model; the code lock and the overlap check `arm` needs are a parameter.
- `api.rs`, `module.rs`, `symbols.rs`, `cfg.rs`, `resolve.rs`, `registry.rs`, `reentrancy.rs`, `iat.rs`, `eat.rs`, `scan.rs`: wrappers and lookups that would only add easy members.
- The 32-bit variants (stub, thunks, imports), the AVX feature test and all sleeps.
- The gateway of `install_with_original`, `armed_in_range`, `alloc_export_stub`, `virtual_protect_same_execute` and `branches_into`; the last one appears as the hypothesis of `RelocatorSim.CopyStaysOffPatch`.
- Instruction decoding and encoding by iced: contracts only (order kept, branches to stolen instructions go to their copies, other branches keep their absolute target).
- Int3InFlight.HandlerOutlivesTraps: assumes, as `StackScan.Dispatching` shows for the scan itself, that a suspended thread that is dispatching a trap at a retired address is reported; the traps the check does not know are named above.
- Int3Safety.KeptByForget: unmapping the image and `forget` are one step, although the program lets time pass between them, in which a 0xCC that a new image has at that address would be taken for the hook's.
- Int3Table.Table.Handle: with nothing running beside it; every interleaving is in `Int3Safety`.
- `arms_debug_register` and the debug-register half of `dispatching`: the INT3 caller does not ask for it.
- ReclaimPass.FreedIsUnreferenced: assumes the thread walk is available, lists threads in creation order and fails only at its end, and that ids are not reused in a pass. A pass skipped because `try_hold_freeze_lock` fails (`src/reclaim.rs:179`) changes nothing and is no step; draining the quarantine and enumerating the threads are one step. The pass is modelled on values, since other threads act between its steps; its in-place parts are in `StackScan`.
- StackScan.ScanStack: `VirtualQuery` describes word-aligned regions that contain the queried address, so the guard against a region that does not lead on is not needed; addresses do not saturate.
- DelayManager.StaleHookDoesNotSurvive: the loader announces an unload before it unmaps the image, and a reloaded entry byte is not 0xCC. The notification and its flag may change at any moment, together or not.
- FreezeLock.SuspenderStaysRunning: a pass resumes what it suspended before it drops its guard.
- MidHookBridge.StubBridges: reserved bits of the flags and MXCSR are not masked by `popfq` and `ldmxcsr`, and the stack does not wrap around address 0.
- MidHookBoundary.ReturnUnwinds: the handler does not overwrite the site slot, which lies outside the context it is given.
- MidHookBuild.BuildStub: the pop block, one literal in the source, is emitted register by register.
- NearAlloc.AlignDown: masks with a power of two are written as division; no address overflow.
- PageWrites.Memory.WritePages: flushing the instruction cache is not modelled.
- DiskImage.Read: sections are disjoint and the relocations sorted, as `parse` leaves them; header and export parsing and the sort itself are not modelled.
- Imports.EnumerateImports: the PE header checks and the directory lookup are a parameter, and which byte strings are UTF-8 as well.
- Thunks.CodeFromPointer: memory does not change during the walk.
