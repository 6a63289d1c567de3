# loliOS in Dafny

loliOS is a small x86 kernel: a handful of processes on three virtual terminals, a round-robin
scheduler, signals with user-mode handlers, a read-only filesystem, a virtualised real-time clock.
Its logic works in place on static tables, kernel stacks, page-table entries and video memory. This
project models that logic and proves what it is for. `dafny verify dfyconfig.toml` checks all of it.

The model has two layers. Specification modules state each component as values and pure step
functions, with the theorems over single steps, whole runs and all reachable states. Code modules
(`KernelCode`, `SignalCode`, `TerminalCode`, `FileCode`, and the methods of `FileSystem`, `Commands`,
`Loader`, `Rtc`, `Primitives` and `Numbers`) follow the C functions statement by statement on arrays
and fields, and are proved against the specification. ASSERTs of the source are `assert` statements
there.

All gates are interrupt gates, so kernel code is atomic except in the `sti; hlt; cli` wait loops.
An event is therefore a system call, an interrupt, or the start and end of such a wait.

- **Processes** (`Events`, `Sessions`, `SessionTheorems`, `Kernel`, `Refinement`, `InterruptRefines`,
  `SwitchRefines`, `CallRefines`, `KernelTheorems`, `KernelFacts`, `KernelCalls`, `KernelStacks`,
  `KernelCode`).
  `Sessions` is what a user sees: one call stack of programs per terminal. `Kernel` is what process.c
  does: a flat table of PCBs, saved stack pointers into kernel stacks made of records, a user page, a
  TSS and a vidmap entry. Table size and number of terminals are arbitrary. `RunRefines` relates the
  two over every run from boot; `KernelFacts` and `KernelCalls` restate the consequences in the kernel's own
  terms.
- **Signals** (`Machine`, `UserMemory`, `SignalFrames`, `Signals`, `SignalTheorems`, `SignalRuns`,
  `SignalMeanings`, `SignalCode`).
  Delivery writes bytes; the linkage it writes is executed by a four-instruction x86 interpreter; a
  history list of outstanding frames, which the kernel does not keep, carries the stack discipline.
- **Terminals** (`Screen`, `Waiting`, `Keyboard`, `Terminals`, `TerminalTheorems`, `TerminalCode`,
  `Vidmap`). Video memory is one flat array, so that a write outside a screen is a write to something
  else and isolation is a theorem. `Waiting` is the shape of both blocking loops. `Vidmap` runs the
  process table and the screens together.
- **Files, programs, clock, numbers** (`FileSystem`, `Files`, `FileCode`, `Commands`, `Loader`, `Rtc`,
  `Primitives`, `Numbers`, with `Arithmetic` for products and quotients).

Where the source does not do what its comments or names suggest, the model follows the code, shows a
concrete input on which the expected property fails, and proves exactly when it holds:

- terminal.c:395 shifts as many characters as were read, not as many as remain: `FifoExactly`,
  `FifoForAll`, `TypeAheadIsMangled`.
- terminal.c:349-351 promises that a read ends at the first line break; terminal.c:308-318 looks for one
  only while fewer characters are waiting than were asked for: `ReadCrossesLineBreak`, `StopsExactly`,
  `StopsForAll`.
- terminal.c:174-185 does not check for the top of the screen: `CursorKept`, `LocalExactly`,
  `LocalForAll`, `BackspaceEscapes`, `LongLineReachesNeighbour`.
- process.c:239-262 assumes the program fits below USER_PAGE_END, where nothing is mapped:
  `FitsExactly`, `OneByteTooLong`.
- filesys.c:194-197 adds an error return to the file position: `FailedReadMoves`, `WalksBack`,
  `BadInodeWalksBack`.
- rtc.c:146 computes its target in 32 bits: `TargetMeans`, `LastTickDoesNotWait`.
- `is_user_readable` refuses ranges that reach the last byte of the page, since it compares the
  exclusive end with the exclusive end: `UserRangeMeans`, `LastByteRefused`.
- atoi_s accepts a lone minus sign as zero, and wraps silently: `LoneMinus`, `AtoiItoa`, `FirstWrap`.

Inputs from outside are parameters: whether a command names an executable (`Execute(valid)`, decided by
`Commands.ParseCmd`), keystrokes, the order of interrupts, what user code does between them, what the
interrupts do between two rounds of a wait loop, and the bytes that happen to follow an input buffer.

## Model

| member | source | states |
|---|---|---|
| `KernelTheorems.RunRefines` | student-distrib/process.c:422-630 | For every list of events the process table, the saved stack pointers and the page entries refine the machine of per-terminal call stacks, both report the same outcomes in the same order, and no ASSERT fires and no stale frame is returned through |
| `KernelTheorems.StepRefines` | student-distrib/process.c:422-630 | One event of any kind keeps the refinement and reports the same outcome |
| `KernelTheorems.BootRefines` | student-distrib/process.c:708-726 | The state after `process_start_shell` is the session machine with one shell per terminal, for every table size, number of terminals and clock value |
| `KernelFacts.SleepsIffOneChild` | student-distrib/process.c:422-497 | In every reachable state a live process sleeps if and only if it has a live child, and it never has two |
| `KernelFacts.OneAwakePerTerminal` | student-distrib/process.c:67-80 | Every terminal has exactly one non-sleeping process at any time, the one `get_pcb_by_terminal` finds, and the terminal's vidmap flag is that process's |
| `KernelFacts.RootsKeepTheirSlots` | student-distrib/process.c:542-551 | Over every run the processes without parent occupy exactly the first NUM_TERMINALS slots, each terminal's root always the same slot |
| `KernelFacts.UserModeIsCoherent` | student-distrib/process.c:291-390 | Whenever user code runs, the user page, `tss.esp0` and the PCB found from the kernel stack name the process whose registers are loaded |
| `KernelFacts.SavedFramesAreIntact` | student-distrib/process.c:613-618 | A RUN process that is not on the processor has its saved stack pointer at a `process_switch_impl` frame on its own kernel stack; every child holds a pointer to its parent's live `process_run_impl` frame |
| `KernelFacts.VidmapIsCoherent` | student-distrib/process.c:685-705 | Over every run the vidmap entry is present iff the process on the processor has called vidmap, and then it points at that terminal's current video memory; only the displayed terminal points at VGA memory |
| `KernelFacts.FailedExecuteChangesNothing` | student-distrib/process.c:422-448 | An execute that fails changes nothing but the caller's own kernel stack, and fails only for an invalid command or a full table |
| `KernelFacts.ExecuteReturnsChildStatus` | student-distrib/process.c:480-580 | If an execute ever returns, it returns the status its own child halted with, whatever other terminals, grandchildren and interrupts do in between |
| `KernelFacts.ExecuteThenHalt` | student-distrib/process.c:480-580 | halt undoes execute: the caller runs again with the status, and the same processes are alive as before |
| `KernelFacts.RespawnNeedsOnlyTheShell` | student-distrib/process.c:542-551 | The ASSERT after the respawn of a root shell can fail if and only if the shell is not a valid executable |
| `KernelFacts.SchedulerIsFair` | student-distrib/process.c:87-102 | Over any stretch of events without execute or halt the running process depends only on the number of timer interrupts, every terminal is reached within one round, and a round ends where it began |
| `KernelFacts.AlarmsAreOnTime` | student-distrib/process.c:732-746 | A process gets SIG_ALARM at exactly each 10240th tick after its execute for as long as it lives, also when the 32-bit counter wraps |
| `KernelFacts.RespawnedAlarmsAreOnTime` | student-distrib/process.c:732-746 | The same for a shell that takes the place of one that exited |
| `KernelFacts.BootAlarmsAreOnTime` | student-distrib/process.c:732-746 | The same for the first shells, counting from boot |
| `KernelCalls.ExecuteMeans` | student-distrib/process.c:422-515 | In every reachable state execute() fails iff the command is not valid or all slots are taken; otherwise the lowest free slot is a running child of the caller on its terminal, in its own frame, without video page and with a fresh alarm; the caller sleeps and no other process is touched |
| `KernelCalls.HaltMeans` | student-distrib/process.c:522-580 | In every reachable state halt() frees the slot and the parent runs again with the status, its own frame and its own video page; a root shell is replaced in its slot and on its terminal; no other process is touched |
| `KernelCalls.VidmapMeans` | student-distrib/process.c:685-705 | vidmap() makes the page present on the caller's own screen and marks process and terminal; with a bad pointer it fails and changes nothing but its own kernel stack |
| `KernelCalls.DisplayMeans` | student-distrib/terminal.c:233-262 | A display switch puts the chosen terminal on VGA memory and every other on its own page, and touches no process |
| `KernelCalls.TimerMeans` | student-distrib/process.c:87-102 | In every reachable state a timer interrupt gives the processor to the first slot after the current one, going round, that is alive and not asleep |
| `KernelCalls.BlockThenWake` | student-distrib/terminal.c:300-337 | A blocking read that is woken leaves its process in user mode as it was |
| `Vidmap.StoresStayAtHome` | student-distrib/terminal.c:627-633 | Over every run of processes, interrupts, output, input, display changes and user stores through the vidmap page, each terminal is a standalone terminal fed its own events and the stores of its own processes; no store reaches another screen |
| `Vidmap.StoresStayAtHomeFromBoot` | student-distrib/terminal.c:627-664 | The same for every run from boot |
| `Vidmap.RunMeans` | student-distrib/paging.c:195-205 | Over every such run, resolving stores through the page-table entry gives the same video memory as applying them to the storing process's own terminal |
| `Vidmap.StepMeans` | student-distrib/paging.c:195-205 | One store through the entry is one store to the storing process's own video page, or none if it has not called vidmap |
| `Vidmap.EntryIsOwn` | student-distrib/process.c:685-705 | In user mode the entry is present iff the process has called vidmap and holds the physical page of its own terminal |
| `SessionTheorems.PrefixStep` | student-distrib/process.c:553-580 | A call stack keeps its prefix until the program at its end halts, and only that halt resumes the caller below it |
| `SessionTheorems.ReturnMatches` | student-distrib/process.c:553-580 | Over any run, the first time a caller is resumed its own child has just halted with that status on top of the same stack |
| `SessionTheorems.AlarmSchedule` | student-distrib/process.c:732-746 | A program n ticks old is alarmed by the next tick iff n + 1 is a multiple of the period |
| `SessionTheorems.TurnOnce` | student-distrib/process.c:87-102 | Within one round no terminal has the processor twice |
| `SessionTheorems.TurnReaches` | student-distrib/process.c:87-102 | Within one round every terminal has the processor |
| `SessionTheorems.TurnCloses` | student-distrib/process.c:87-102 | After NUM_TERMINALS timer interrupts the rotation is back where it started |
| `SessionTheorems.NextInLag` | student-distrib/process.c:87-102 | The scheduler always picks the runnable slot that comes soonest in cyclic slot order after the current one |
| `SessionTheorems.RoundRobin` | student-distrib/process.c:585-630 | Without execute and halt only timer interrupts move the processor, each to the next terminal of the rotation |
| `Sessions.StepWellFormed` | student-distrib/process.c:422-630 | Every event keeps call stacks non-empty, disjoint and duplicate-free with fixed roots |
| `CallRefines.ExecuteRefines` | student-distrib/process.c:480-497 | execute pushes the lowest free slot on the caller's stack or fails without effect |
| `CallRefines.HaltRefines` | student-distrib/process.c:522-580 | halt pops the caller's stack and hands the status to the process below, or restarts a root shell in the same slot |
| `CallRefines.RootIsLowest` | student-distrib/process.c:542-551 | The slot a halting root gives up is the lowest free one, so the new shell gets the same PID |
| `CallRefines.OnlyChild` | student-distrib/process.c:522-580 | The halting process is the only live child of its parent |
| `SwitchRefines.TimerRefines` | student-distrib/process.c:585-630 | A timer interrupt parks the current process and resumes, or starts for the first time, the next runnable one, through a frame that is still there |
| `SwitchRefines.NextMatches` | student-distrib/process.c:87-102 | The modular slot scan finds the foreground process of the next terminal of the rotation; it finds the current one only if no other is runnable |
| `InterruptRefines.TickRefines` | student-distrib/rtc.c:38-49 | A clock tick keeps every alarm time in step with the age of its process modulo the period |
| `InterruptRefines.ClockedKeeps` | student-distrib/process.c:738-743 | The 32-bit elapsed-time test fires exactly when the true age reaches a multiple of the period, across wrap-around |
| `InterruptRefines.VidmapRefines` | student-distrib/process.c:685-705 | vidmap maps the caller's terminal and nothing else |
| `InterruptRefines.DisplayRefines` | student-distrib/terminal.c:233-262 | Changing the display re-points the vidmap entry iff the executing terminal gains or loses VGA memory |
| `Refinement.RunnableIsTop` | student-distrib/process.c:87-102 | A slot is runnable iff it is on top of some terminal's call stack |
| `Refinement.SameFreeSlot` | student-distrib/process.c:109-124 | The first slot `process_new_pcb` finds free is the lowest slot on no call stack |
| `KernelStacks.ClearLow` | student-distrib/process.c:59 | Masking off the low k bits rounds down to a multiple of 2^k |
| `KernelStacks.MaskFindsSlot` | student-distrib/process.c:42-61 | Masking ESP finds process pid iff ESP lies inside that process's 8KB block; at ESP0 itself it would find the next one |
| `KernelCode.Processes.constructor` | student-distrib/process.c:708-715 | All slots free, all screens on their pages, the boot stack current |
| `KernelCode.Processes.NewPcb` | student-distrib/process.c:109-124 | Returns the lowest free slot, marked used, or -1 when none is free |
| `KernelCode.Processes.GetNextPcb` | student-distrib/process.c:87-102 | The loop computes the next runnable slot in cyclic order |
| `KernelCode.Processes.GetPcbByTerminal` | student-distrib/process.c:67-80 | In every valid state the scan returns the foreground process of the terminal |
| `KernelCode.Processes.RunImpl` | student-distrib/process.c:311-390 | In-place update of PCB, context and kernel stack equals the specified start of a program |
| `KernelCode.Processes.CreateChild` | student-distrib/process.c:422-469 | Initialises the lowest free PCB with parent, terminal, status, vidmap flag and alarm time |
| `KernelCode.Processes.Execute` | student-distrib/process.c:480-515 | The code refines the push on the session machine and keeps the object valid |
| `KernelCode.Processes.Halt` | student-distrib/process.c:522-580 | The code refines the pop or the restart, with both ASSERTs proved |
| `KernelCode.Processes.ResumeParent` | student-distrib/process.c:553-580 | Returns through the frame the child saved for its parent, in the parent's context |
| `KernelCode.Processes.Switch` | student-distrib/process.c:585-630 | The code refines the move to the next terminal, with the saved frame proved present |
| `KernelCode.Processes.HandlePit` | student-distrib/process.c:585-643 | The interrupt as a whole equals the specified timer step |
| `KernelCode.Processes.Vidmap` | student-distrib/process.c:685-705 | The code refines vidmap, including the error return |
| `KernelCode.Processes.SetDisplay` | student-distrib/terminal.c:233-262 | The code refines the display change, with the ASSERT of the buffer swap proved |
| `KernelCode.Processes.HandleDisplay` | student-distrib/terminal.c:233-262 | The interrupt as a whole equals the specified display step |
| `KernelCode.Processes.HandleRtc` | student-distrib/rtc.c:38-49 | The code refines a tick and reports exactly the processes that are due |
| `KernelCode.Processes.UpdateClock` | student-distrib/process.c:732-746 | The loop updates exactly the due PCBs and collects exactly their slots |
| `KernelCode.Processes.UpdateVidmap` | student-distrib/terminal.c:627-633 | Sets the page-table entry and the terminal's flag together |
| `KernelCode.Processes.SetContext` | student-distrib/process.c:291-302 | User page, vidmap entry and ESP0 are set for one and the same process |
| `KernelCode.Processes.StartShells` | student-distrib/process.c:718-726 | Leads from the initial object to a valid one with one shell per terminal |
| `SignalTheorems.RunKeeps` | student-distrib/idt.c:126-148 | Over every run in which handlers leave only through their linkage: outstanding frames are intact and stacked, a signal is masked iff it has a frame, and no exception signal is pending in user mode |
| `SignalTheorems.StepKeeps` | student-distrib/idt.c:126-148 | Every interrupt, exception, system call and sigreturn keeps that invariant, including delivery right after a sigreturn in the same interrupt |
| `SignalTheorems.DepthBound` | student-distrib/signal.c:86-93 | Frames never nest deeper than NUM_SIGNALS |
| `SignalTheorems.FramePersists` | student-distrib/signal.c:12-93 | A frame stays on the stack unchanged until its own linkage is executed |
| `SignalTheorems.ReturnMatchesDelivery` | student-distrib/signal.c:110-156 | However deeply other signals nest in between, sigreturn restores the context that was interrupted when that frame was built |
| `SignalTheorems.DeliverThenReturn` | student-distrib/signal.c:12-156 | Delivery, any handler that leaves its frame alone, its return, the four linkage instructions and sigreturn together restore all general registers, EIP, ESP and the user flags |
| `SignalRuns.DeliveredAtOnce` | student-distrib/signal.c:216-227 | A raised signal with a handler is delivered by the next interrupt if the user stack has room and no lower-numbered signal acts, whatever else is pending: the frame is pushed and the signal is no longer pending (`HandlerEntered` says what the handler finds) |
| `SignalRuns.HandledFromStartToFinish` | student-distrib/idt.c:126-148 | Raise, interrupt and handler form a run that ends at the linkage trap, and the trap gives all registers back: loaded if nothing else acts, else saved in the frame of the next signal; whatever the handler did outside the frames |
| `SignalTheorems.DeliveryFootprint` | student-distrib/signal.c:12-93 | Delivery changes only the 108 bytes below the interrupted ESP |
| `SignalTheorems.OldIntact` | student-distrib/signal.c:12-93 | Delivery leaves every older frame intact |
| `SignalTheorems.FailedDeliveryFootprint` | student-distrib/signal.c:36-64 | A delivery that fails half-way has changed only bytes below the interrupted ESP |
| `SignalTheorems.SigreturnRestores` | student-distrib/signal.c:110-156 | The trap at the end of a linkage unmasks its signal and restores the saved registers, EAX through the system call return path |
| `SignalTheorems.RestoredContext` | student-distrib/signal.c:134-149 | User-modifiable flags come from the frame, all other flags stay the kernel's |
| `SignalTheorems.ExceptionsFirst` | student-distrib/signal.c:164-227 | A pending DIV_ZERO or SEGFAULT is the first signal acted on |
| `SignalMeanings.HandlerEntered` | student-distrib/signal.c:46-91 | The interrupt after a raised signal with a handler goes to that handler: EIP is its address, ESP the frame, the segments the user ones, all general registers as interrupted, the direction flag clear and every other flag bit kept; on the stack the return address, the signal number as argument, and each interrupted register at its place in the interrupt frame |
| `SignalMeanings.HandlerIsSet` | student-distrib/signal.c:95-107 | set_handler with a number below 5 installs the address for that signal and no other and returns 0, otherwise it installs nothing and returns -1; the value is in EAX or, if a signal is delivered on the way back, in the saved EAX |
| `SignalMeanings.CallReturns` | student-distrib/idt.c:113-119 | Every call but set_handler and sigreturn leaves its result in EAX or in the saved EAX, and all handlers as they were |
| `SignalMeanings.InstalledIsEntered` | student-distrib/signal.c:95-107 | set_handler(n, h), then signal n, then an interrupt: the program is at h |
| `SignalMeanings.ExceptionActs` | student-distrib/idt.c:74-84 | In every state satisfying the invariant, exception 0 is acted on as signal 0 and every other exception as signal 1: the handler if there is one that is not running and 108 bytes of stack are free, else death with 256 |
| `SignalMeanings.LowestIsHandled` | student-distrib/signal.c:164-227 | Of the pending signals that have a free handler or are numbered 0 to 2, the lowest is acted on: its handler, or death with 130 for an unhandled INTERRUPT and 256 for the rest |
| `SignalMeanings.RestIsForgotten` | student-distrib/signal.c:191-193 | If there is no such signal, nothing happens and nothing stays pending |
| `SignalMeanings.Defaults` | student-distrib/signal.c:184-193 | Without a handler, ALARM and USER1 are ignored and INTERRUPT kills with 130 |
| `SignalMeanings.SigreturnChecks` | student-distrib/signal.c:117-149 | A bad number or a frame address outside the user page changes only EAX, to -1; otherwise the program goes on in user segments with the signal unmasked |
| `SignalMeanings.UserFlags` | student-distrib/signal.c:136-137 | The flags taken from the frame are exactly carry, parity, adjust, zero, sign, trap, direction and overflow |
| `SignalMeanings.PartCases` | student-distrib/signal.c:36-58 | What a failed delivery has written, by where ESP was |
| `Waiting.AbortedReadIsHandled` | student-distrib/rtc.c:155-178 | If a wait loop gives up at some round, the return path from the signal table of that round delivers or kills for its lowest-numbered acting signal, and a delivered frame saves the -1 of the read |
| `Waiting.StoppedOnce` | student-distrib/terminal.c:300-337 | What the rounds see determines where and how a wait loop stops |
| `Signals.PendingMeansAction` | student-distrib/signal.c:164-265 | `signal_has_pending` is true iff `signal_handle_all` delivers or kills, and it acts on the lowest-numbered such signal |
| `SignalFrames.LinkageDecodes` | student-distrib/signal.c:16-70 | The bytes written decode to mov eax,10; mov ebx,signum; mov ecx,frame; int 0x80 |
| `SignalFrames.HandlerReturns` | student-distrib/signal.c:39-70 | Executing ret and then the linkage traps with the right signal number and frame address in the right registers |
| `SignalFrames.RegsRoundTrip` | student-distrib/signal.c:46-51 | The 80 saved bytes decode to the registers they were made from |
| `SignalFrames.FlagsMerge` | student-distrib/signal.c:134-138 | Each flag bit comes from the frame iff it is user-modifiable |
| `SignalFrames.DeliverableMeans` | student-distrib/signal.c:36-64 | The four checked copies succeed iff all 108 bytes lie in the user page |
| `SignalCode.Process.constructor` | student-distrib/signal.c:199-209 | A fresh process satisfies the signal invariant with no outstanding frame |
| `SignalCode.Process.PushContext` | student-distrib/signal.c:36-58 | The first three pushes, as far as they succeed |
| `SignalCode.Process.PushRegs` | student-distrib/signal.c:46-58 | The pushes of the registers and of the signal number, as far as they succeed |
| `SignalCode.Process.PushFrame` | student-distrib/signal.c:36-64 | The four pushes write one contiguous block, or leave exactly the ones before the failing one |
| `SignalCode.Process.PatchLinkage` | student-distrib/signal.c:66-70 | The three operands of the linkage are filled in, the signal number read back from the user stack |
| `SignalCode.Process.Deliver` | student-distrib/signal.c:12-93 | In-place writes to page, registers and signal table equal the specified delivery; it fails iff the frame does not fit, with the partial writes specified |
| `SignalCode.Process.HasPending` | student-distrib/signal.c:234-265 | The loop answers whether some pending signal would be delivered or kill |
| `SignalCode.Process.Handle` | student-distrib/signal.c:164-194 | Delivers, kills with 256 or 130, or drops, depending on handler, mask and number, with memory, registers and table exact in every case |
| `SignalCode.Process.HandleAll` | student-distrib/signal.c:216-227 | The loop drops ignored signals and stops at the first that acts |
| `SignalCode.Process.Sigreturn` | student-distrib/signal.c:110-156 | Restores and unmasks for a valid number and frame address, otherwise returns -1 unchanged |
| `SignalCode.Process.HandleSyscall` | student-distrib/idt.c:113-119 | Dispatches sigreturn, set_handler and all other calls and stores the result in EAX |
| `SignalCode.Process.HandleInterrupt` | student-distrib/idt.c:126-148 | Raises for exceptions, dispatches system calls, then handles signals, in that order |
| `SignalCode.Process.CopyToUser` | student-distrib/lib.c:705-714 | Writes all bytes iff the range is in the user page, otherwise none |
| `SignalCode.Process.CopyFromUser` | student-distrib/lib.c:690-699 | Reads all bytes iff the range is in the user page |
| `UserMemory.UserRangeMeans` | student-distrib/lib.c:596-623 | The overflow and bounds checks accept exactly ranges inside the user page that stop short of its last byte |
| `UserMemory.LastByteRefused` | student-distrib/lib.c:618 | Counterexample: the last byte of the page is refused |
| `TerminalTheorems.RunIsolated` | student-distrib/terminal.c:154-262 | For every safe interleaving of output, typing, clearing, reading and switching, each terminal's screen, cursor and input buffer are those of a standalone terminal fed only its own events |
| `TerminalTheorems.StepIsolated` | student-distrib/terminal.c:154-262 | One event acts on its own terminal as on a standalone one and on no other |
| `TerminalTheorems.KeyShows` | student-distrib/terminal.c:570-588 | A key is drawn iff it is kept or takes a character back; otherwise nothing at all changes |
| `TerminalTheorems.TypedIsShown` | student-distrib/terminal.c:570-588 | Up to 127 characters typed ahead are all on the screen and all waiting, in order |
| `TerminalTheorems.ClearShows` | student-distrib/terminal.c:211-228 | CTRL-L leaves blank cells, the cursor in the corner and nothing waiting |
| `TerminalTheorems.InputShows` | student-distrib/terminal.c:283-296 | Reading takes characters and clearing the input drops them; neither is seen on the screen |
| `TerminalTheorems.StepOk` | student-distrib/terminal.c:96-262 | Exactly the displayed terminal points at VGA memory after every event, and cursors stay on the screen |
| `TerminalTheorems.SwapStep` | student-distrib/terminal.c:96-117 | Switching preserves all logical screens, and the ASSERT on the old pointer holds |
| `TerminalTheorems.StoreStep` | student-distrib/terminal.c:627-633 | A store to a terminal's 4KB video page is seen on its screen, if at all, and on no other |
| `TerminalTheorems.ShortLinesAreSafe` | student-distrib/terminal.c:154-205 | Output whose logical lines stay below 2000 characters is always safe |
| `TerminalTheorems.ShortStep` | student-distrib/terminal.c:154-262 | While no logical line reaches 2000 characters, every event keeps logical_x / 80 <= screen_y < 25 on all terminals |
| `TerminalTheorems.ShortRunsAreSafe` | student-distrib/terminal.c:154-262 | Every interleaving in which no logical line reaches 2000 characters is safe, so isolation holds of it |
| `TerminalTheorems.TypingIsSafe` | student-distrib/terminal.c:570-588 | A keystroke is safe while the whole logical line is on the screen |
| `TerminalTheorems.LongLineReachesNeighbour` | student-distrib/terminal.c:174-185 | Counterexample to unconditional isolation: 2000 characters and 1969 backspaces on a background terminal change the screen of the one before it |
| `TerminalTheorems.InitialOk` | student-distrib/terminal.c:639-664 | The initial state satisfies the invariant for any number of terminals |
| `Screen.CursorKept` | student-distrib/terminal.c:154-205 | A character keeps screen_x = logical_x mod 80 and the cursor on the screen if and only if it is not a backspace at the top left corner of a longer line |
| `Screen.AnchoredKept` | student-distrib/terminal.c:154-205 | While logical_x stays below 2000, logical_x / 80 <= screen_y < 25 is kept and no character is unsafe |
| `Screen.PrintMeans` | student-distrib/terminal.c:141-205 | A character is put under the cursor in grey on black; the cursor goes one place on, after column 79 to the next row as a newline does |
| `Screen.NewlineMeans` | student-distrib/terminal.c:123-170 | A newline goes to the start of the next row; on the last row all rows move up and the last is blank |
| `Screen.ReturnAndBackspaceMean` | student-distrib/terminal.c:171-185 | A return goes to column 0; a backspace blanks the character before the cursor and goes there, over a row boundary if need be, but not beyond the start of the logical line |
| `Screen.PutLocal` | student-distrib/terminal.c:141-205 | A safe character changes only the 4000 bytes of its own screen, as it would on a screen of its own |
| `Screen.UnsafeWrite` | student-distrib/terminal.c:174-185 | The unsafe backspace blanks the two bytes before the screen and nothing else |
| `Screen.LocalExactly` | student-distrib/terminal.c:141-205 | A character keeps all bytes outside its screen if and only if it is safe or those two bytes are blank already |
| `Screen.LocalForAll` | student-distrib/terminal.c:141-205 | It does so in every memory if and only if it is safe |
| `Screen.AllLocal` | student-distrib/terminal.c:429-454 | The same for whole strings |
| `Screen.WindowKept` | student-distrib/terminal.c:123-205 | Screen and cursor are the 25-row window of an unbounded page laid out by wrap, newline, return and backspace; an unsafe character is exactly one that leaves the window at the top |
| `Screen.WindowRun` | student-distrib/terminal.c:123-205 | The same over whole strings |
| `Screen.BackspaceEscapes` | student-distrib/terminal.c:174-185 | Counterexample: how the cursor gets above the screen, and which byte before the screen is then blanked |
| `Keyboard.KeyOk` | student-distrib/terminal.c:570-588 | Every key but backspace is appended while fewer than 127 characters wait, the 128th place takes a newline only; backspace takes the last character if there is one and the line is not empty; all else is ignored; 0 <= count <= 128 and a full buffer ends in newline |
| `Keyboard.PollMeans` | student-distrib/terminal.c:300-337 | A reader gets what it asked for if that much waits, else up to the first newline, and waits iff neither |
| `Keyboard.RunOk` | student-distrib/terminal.c:361-400 | 0 <= count <= 128 and a full buffer ends in newline over every run of typing, erasing, clearing and reading |
| `Keyboard.ReadCrossesLineBreak` | student-distrib/terminal.c:308-318 | Counterexample: a read of three characters returns a, newline, b |
| `Keyboard.StopsExactly` | student-distrib/terminal.c:308-336 | A read stops at the first line break if and only if it asks for more than has been typed or no newline comes before the last character asked for |
| `Keyboard.StopsForAll` | student-distrib/terminal.c:308-336 | It does so for every buffer of a given count if and only if it asks for more than the count, or for at most one character |
| `Keyboard.NewlineUnblocks` | student-distrib/terminal.c:300-337 | One newline typed on its terminal releases any blocked reader with everything typed so far |
| `Keyboard.FifoExactly` | student-distrib/terminal.c:394-396 | The shift after a read keeps what is left in order if and only if the characters it fails to move repeat with period n |
| `Keyboard.FifoForAll` | student-distrib/terminal.c:394-396 | It keeps every buffer of a given count in order if and only if nothing or at least half is read |
| `Keyboard.TypeAheadIsMangled` | student-distrib/terminal.c:394-396 | Counterexample: typing ahead of a line reader loses and repeats characters |
| `Keyboard.NextAgrees` | student-distrib/terminal.c:361-400 | Under that condition the buffer behaves as a plain queue, one event at a time |
| `Keyboard.RunAgrees` | student-distrib/terminal.c:361-400 | Over every run under that condition, erasing and clearing included, what has been read and what is waiting are what a queue fed the same events has |
| `Keyboard.QueueConserves` | student-distrib/terminal.c:361-400 | In a queue without erasing, characters only move from waiting to read |
| `Keyboard.NothingLost` | student-distrib/terminal.c:361-400 | Over every such run with nothing erased, the characters read and waiting are exactly those typed with room for them (127, or 128 for a newline), each once, in order |
| `Keyboard.TypedIsWaiting` | student-distrib/terminal.c:570-588 | Over every run of up to 127 keys without backspace, all of them are waiting, in order |
| `TerminalCode.Console.constructor` | student-distrib/terminal.c:639-664 | All pages cleared, terminal 0 displayed, the invariant established |
| `TerminalCode.Console.ClearRegion` | student-distrib/terminal.c:64-73 | Fills the region with blank cells and touches nothing else |
| `TerminalCode.Console.ScrollDown` | student-distrib/terminal.c:123-134 | The overlapping move and the clear equal one scrolled screen |
| `TerminalCode.Console.WriteChar` | student-distrib/terminal.c:141-148 | Writes the character and attribute at the cursor's cell |
| `TerminalCode.Console.PutcAt` | student-distrib/terminal.c:154-205 | All branches, with wrap, retreat and scrolling, equal the specified step on memory and cursor |
| `TerminalCode.Console.StdoutWrite` | student-distrib/terminal.c:429-454 | Draws the whole buffer or, if it is not readable, nothing |
| `TerminalCode.Console.SwapBuffer` | student-distrib/terminal.c:96-117 | The two copies and pointer updates equal the specified swap |
| `TerminalCode.Console.SetDisplay` | student-distrib/terminal.c:233-252 | Keeps the invariant and all logical screens |
| `TerminalCode.Console.HandleChar` | student-distrib/terminal.c:570-588 | Buffer and echo are updated together as specified |
| `TerminalCode.Console.ClearDisplay` | student-distrib/terminal.c:274-280 | Clears screen, cursor and input of the displayed terminal |
| `TerminalCode.Console.TakeInput` | student-distrib/terminal.c:389-399 | Copies the first n waiting characters to the caller's buffer and shifts the rest as the code does |
| `TerminalCode.Console.StdinRead` | student-distrib/terminal.c:361-400 | Over everything that happens while it waits: refuses a bad buffer, gives up for a signal, or delivers and consumes what the last round found |
| `TerminalCode.FullBufferSatisfies` | student-distrib/terminal.c:372-375 | A read of more than 128 characters is satisfied by a full buffer |
| `TerminalCode.Console.ClearInput` | student-distrib/terminal.c:283-289 | Empties the keyboard buffer of one terminal |
| `TerminalCode.WaitKbdInput` | student-distrib/terminal.c:300-337 | Over all behaviours of interrupts between rounds: stops at the first round with enough input or a newline, else at the first whose signal table has something to act on |
| `TerminalCode.ShiftDown` | student-distrib/terminal.c:395 | The memmove of n bytes to the front, reading past the buffer for large n |
| `FileSystem.ReadData` | student-distrib/filesys.c:76-127 | For any offset and length on a well-formed image writes exactly file[offset .. min(offset + length, size)] and nothing else, or returns -1 with no write; block index 1023 is never read; a store past the mapped memory faults with exactly the bytes before it written |
| `FileSystem.CopyBlocks` | student-distrib/filesys.c:99-124 | The block loop copies a contiguous slice of the flat file, up to the first byte that is not mapped |
| `FileSystem.BlockSlice` | student-distrib/filesys.c:118-122 | A piece of one block is a piece of the flat file, with a legal block number |
| `FileSystem.CmpName` | student-distrib/filesys.c:17-33 | Zero iff the C string equals the stored name, also for 32-byte names without NUL |
| `FileSystem.ReadDentryByName` | student-distrib/filesys.c:40-52 | Finds the first entry of that name, if any |
| `FileSystem.LookupMeans` | student-distrib/filesys.c:40-52 | A name is found iff some entry has it, and then it is the first such entry |
| `FileSystem.NameRoundTrip` | student-distrib/filesys.c:17-52 | A listed name leads back to its own entry if and only if no earlier entry has the same name |
| `FileSystem.DistinctNamesRoundTrip` | student-distrib/filesys.c:17-52 | With distinct names every listed name finds its own entry |
| `Files.StepOk` | student-distrib/file.c:119-207 | Every call keeps descriptors 0 and 1 open, clocks at a power of two and positions in range |
| `Files.RunOk` | student-distrib/file.c:119-207 | The same over every run of calls |
| `Files.InitialOk` | student-distrib/file.c:118-130 | A fresh table satisfies that invariant whatever the slots held |
| `Files.FreqIsPower` | student-distrib/rtc.c:56-87 | The accepted frequencies are exactly the powers of two from 2 to 1024 |
| `Files.OthersKeep` | student-distrib/file.c:132-207 | No open, and no call on another descriptor, moves this one |
| `Files.OpenFails` | student-distrib/file.c:132-168 | Opening a name no entry has, an unreadable name, or with no descriptor free returns -1 and changes nothing |
| `Files.OpenYields` | student-distrib/file.c:58-82 | Otherwise open returns the lowest free descriptor, a clock at 2 Hz, a directory or file at its start, or the mouse by the type of the entry, and changes no other descriptor |
| `Files.NotOpen` | student-distrib/file.c:96-112 | Every call on a descriptor that is not open returns -1 and changes nothing |
| `Files.CloseFrees` | student-distrib/file.c:195-207 | Descriptors from 2 on can be closed and then are not open; 0 and 1 cannot |
| `Files.ClosedIsReused` | student-distrib/file.c:132-207 | The next open gets the lowest descriptor just closed |
| `Files.RateIsSet` | student-distrib/rtc.c:190-213 | A clock runs at the rate last written to it if that is a power of two from 2 to 1024 in four readable bytes; otherwise the write returns -1 and the rate stays |
| `Files.ShortNames` | student-distrib/filesys.c:143-178 | A directory read into a short buffer gives as much of the name as fits |
| `Files.ConsecutivePieces` | student-distrib/filesys.c:185-201 | Over every run the reads of an open file together return exactly the file from where it stood, as far as they asked, whatever else is opened, read and closed in between |
| `Files.OpenedFileIsReadWhole` | student-distrib/file.c:132-168 | Opening a file by name in the lowest free descriptor and reading as much as it holds gives its contents |
| `Files.ReadFailsExactly` | student-distrib/filesys.c:185-201 | A read with a usable buffer fails if and only if the directory entry named no inode |
| `Files.FailedReadMoves` | student-distrib/filesys.c:185-201 | Over every run of calls, a read with a usable buffer fails and moves the position if and only if the descriptor's inode is out of range |
| `Files.WalksBack` | student-distrib/filesys.c:194-197 | Over every run, each such read of such a file moves the position back by one, modulo 2^32 |
| `Files.BadInodeWalksBack` | student-distrib/filesys.c:194-197 | Counterexample: a well-formed image, an open that succeeds, and one read that leaves the position at 2^32 - 1 |
| `Files.DirectoryListing` | student-distrib/filesys.c:143-178 | Over every run, reading a directory lists the names of its entries in order and then nothing |
| `FileCode.Process.constructor` | student-distrib/file.c:118-130 | A fresh descriptor table |
| `FileCode.Process.Init` | student-distrib/file.c:118-130 | Opens 0 and 1 and closes the rest |
| `FileCode.Process.IsReadableString` | student-distrib/lib.c:576-593 | True iff the address is in the user page and a NUL follows within it |
| `FileCode.Process.InitObj` | student-distrib/file.c:58-82 | Sets up the descriptor by file type, clocks at 2 Hz, and rejects unknown types |
| `FileCode.Process.Open` | student-distrib/file.c:132-168 | The slot scan, lookup and initialisation equal the specified open, error returns included |
| `FileCode.Process.Close` | student-distrib/file.c:195-207 | Frees the descriptor; fails for closed ones and for 0 and 1 |
| `FileCode.Process.ReadFile` | student-distrib/filesys.c:185-201 | New position, return value and user buffer as specified, also on failure |
| `FileCode.Process.ReadDir` | student-distrib/filesys.c:143-178 | Copies the next name without its NUL and advances, or returns 0 at the end |
| `FileCode.Process.WriteRate` | student-distrib/rtc.c:190-213 | Sets the rate iff four readable bytes hold a legal frequency |
| `Rtc.TargetMeans` | student-distrib/rtc.c:146 | The target is the next multiple of the period, except that in the last period before the counter wraps, and only there, it is zero |
| `Rtc.LastTickDoesNotWait` | student-distrib/rtc.c:146 | Counterexample: at the last tick before the wrap the target is zero, at any frequency |
| `Rtc.ReadClock` | student-distrib/rtc.c:139-179 | Over all behaviours of interrupts between rounds: stops at the first round that has reached the target, else at the first whose signal table has something to act on; returns at once iff the counter is in its last period |
| `Rtc.PromptReturn` | student-distrib/rtc.c:139-179 | A reader woken at every tick returns exactly on the multiple |
| `Rtc.ReadsTakeTime` | student-distrib/rtc.c:139-179 | Without wrap-around, n successful reads at frequency f advance the counter by more than (n - 1) * 1024 / f |
| `Rtc.BackToBack` | student-distrib/rtc.c:139-179 | Reads that follow each other at once and return on their targets return on successive multiples of the period |
| `Commands.ParseSpelled` | student-distrib/process.c:153-198 | Parsing blanks, name, blanks and arguments recovers name and arguments, and refuses exactly over-long ones |
| `Commands.EveryTextIsSpelled` | student-distrib/process.c:153-198 | Every command line is of that form |
| `Commands.SplitCmd` | student-distrib/process.c:155-203 | The scanning loops equal the specified parse, with both buffers NUL-terminated |
| `Commands.FindExecutable` | student-distrib/process.c:206-229 | Finds the inode iff the name is a plain file that starts with the ELF magic number |
| `Commands.ExecutableMeans` | student-distrib/process.c:206-229 | The first entry of the name counts, and is executable iff it is a plain file whose contents begin with 7F 45 4C 46 |
| `Commands.UnknownCommand` | student-distrib/process.c:206-211 | A name no entry has is not executable |
| `Commands.ParseCmd` | student-distrib/process.c:131-230 | Accepts exactly well-formed commands for executables and leaves the arguments behind |
| `Commands.StrNCpy` | student-distrib/lib.c:558-573 | Copies the string and pads with NUL to exactly n bytes |
| `Commands.GetArgs` | student-distrib/process.c:659-682 | Writes at most 1024 bytes of NUL-padded arguments, or nothing if the buffer is not in the user page |
| `Commands.ArgBytesAre` | student-distrib/process.c:659-682 | The caller gets the longest prefix of the arguments that fits with a NUL |
| `Commands.ArgsArrive` | student-distrib/process.c:459 | From command line through PCB to getargs the arguments arrive unchanged in any buffer that can hold them |
| `Loader.FitsExactly` | student-distrib/process.c:239-262 | A load faults if and only if the file has more than 0x3B8000 bytes; otherwise the page is zeros, file, zeros; either way nothing outside the process's own frame is written |
| `Loader.LoadedMeans` | student-distrib/process.c:239-262 | Byte by byte, the page of a loaded program holds the file at 0x48000 and zeros elsewhere |
| `Loader.EntryPoint` | student-distrib/process.c:259-261 | The entry point is the little-endian word at bytes 24 to 27 of the file |
| `Loader.FramesFollow` | student-distrib/paging.c:175-188 | Process frames follow the kernel page, one after the other |
| `Loader.OneProgramIsExecutable` | student-distrib/process.c:206-229 | A well-formed image whose one file, of any size up to 1023 blocks, passes all checks of the command parser |
| `Loader.OneByteTooLong` | student-distrib/process.c:239-262 | Counterexample: with one byte more than 0x3B8000 that executable faults when loaded, whatever memory holds |
| `Loader.OtherFramesKept` | student-distrib/paging.c:175-188 | Distinct processes have disjoint frames above the kernel, so writing one changes no other |
| `Loader.Memory.UpdateProcessPage` | student-distrib/paging.c:175-188 | The 10-bit base address selects the frame of the process |
| `Loader.Memory.CopyProgram` | student-distrib/process.c:239-251 | The loop terminates with the whole file copied, or faults at the end of the page with exactly the part before it copied |
| `Loader.Memory.LoadExe` | student-distrib/process.c:239-262 | For a file of any size: faults iff it does not fit, otherwise the page is exactly zeros, the file, zeros and the entry point is read from bytes 24 to 27 |
| `Loader.Memory.EntryWord` | student-distrib/process.c:259-261 | Reads the entry point the specification names |
| `Loader.Memory.ClearAround` | student-distrib/process.c:253-257 | The two memsets leave zeros before and after the file, their 32-bit lengths not wrapping |
| `Loader.Memory.LoadChild` | student-distrib/process.c:464-466 | The child's frame holds its program and nothing else and the result is the word at bytes 24 to 27 of the file, or the load faults; every other process's frame and the kernel are as before |
| `Primitives.MemCpy` | student-distrib/lib.c:402-442 | The align, dword and tail loops equal a plain copy for every alignment and length on disjoint ranges |
| `Primitives.MemSet` | student-distrib/lib.c:305-342 | The same three loops equal a plain fill |
| `Primitives.MemMove` | student-distrib/lib.c:452-473 | Right for every overlap |
| `Numbers.NumeralEvaluates` | student-distrib/lib.c:222-255 | The digits evaluate to the number in every radix from 2 to 36 |
| `Numbers.NumeralIsShortest` | student-distrib/lib.c:222-255 | There is no leading zero |
| `Numbers.HexExample` | student-distrib/lib.c:222-255 | Hexadecimal digits are capital letters, highest first |
| `Numbers.Itoa` | student-distrib/lib.c:222-255 | Digit loop, NUL and reversal leave exactly the numeral and touch nothing else |
| `Numbers.StrRev` | student-distrib/lib.c:263-279 | Reverses in place and touches nothing else |
| `Numbers.PrintHex` | student-distrib/lib.c:76-86 | Always eight hexadecimal digits with the value of the number |
| `Numbers.AtoiS` | student-distrib/lib.c:182-212 | Accepts exactly an optional minus and decimal digits, and computes the number in 32 bits |
| `Numbers.AtoiItoa` | student-distrib/lib.c:182-255 | Reading back a printed number gives it back if and only if it is below 2^31 |
| `Numbers.AtoiNegative` | student-distrib/lib.c:102-115 | The %d form of every negative number reads back as that number |
| `Numbers.LoneMinus` | student-distrib/lib.c:193-196 | A minus sign alone reads as zero, and is the only accepted string without a digit |
| `Numbers.FirstWrap` | student-distrib/lib.c:182-212 | Counterexample: 2147483648 reads as -2147483648 |
| `Numbers.SignedStep` | student-distrib/lib.c:205-206 | 32-bit multiply-and-add gives the true value reduced to 32 bits |

## Left out

- Port I/O and device bring-up (ps2.c, mouse.c, pit.c, i8259.c, VGA cursor registers, RTC registers): hardware plumbing.
- Scancode tables and modifier keys of keyboard.c: keystrokes arrive as characters and control events.
- Boot, multiboot, GDT, LDT and TSS descriptors, assembly thunks: only their effect as entry and exit.
- Literal ESP and EBP values: a saved stack pointer is a stack and a depth, a stack is a list of records; `KernelStacks` covers the address masking. The depth of nested calls inside the 8KB kernel stack is not modelled.
- TLB, caching and the packed layout of page entries: only present and base are kept. Page faults are not modelled.
- The mouse buffer: same shape and same shift as the keyboard buffer.
- Reads of stdin, of a clock and of the mouse through the descriptor table: they do not touch the table; `StdinRead` and `ReadClock` model the first two.
- User programs, the fish animation and the Linux emulation layer; debug output; printf apart from the %#x, %u and %d number forms.
- read_dentry_by_index: a bounds check and a copy, folded into `Files.ReadDirectory`.
- KernelFacts.SchedulerIsFair: stated for stretches without execute and halt; a process table that keeps changing has no fixed rotation.
- SignalTheorems.RunKeeps: assumes of user code that it leaves outstanding frames alone and leaves handlers only through their linkage; a program that does otherwise can corrupt its own frames.
- SignalCode.Process.HandleInterrupt: for interrupts from user mode; the result of system calls other than sigreturn and set_handler is a parameter.
- KernelCode.Processes.RunImpl: clearing the input buffers of the terminal is in `TerminalCode.Console.ClearInput`.
- KernelCode.Processes.CreateChild: signal_init, file_init, the copy of the arguments and the load are in `SignalCode`, `FileCode`, `Commands` and `Loader`, on objects of their own.
- KernelCode.Processes.Halt: closing the open files and clearing the input buffers are in `FileCode` and `TerminalCode`, on objects of their own.
- KernelCode.Processes.Vidmap: the store of the page address through the caller's pointer is left out.
- TerminalCode.Console.ClearInput: the mouse buffer is left out.
- An execute of a program that does not fit stops the machine in the source; `Kernel` has no such event, so its `Execute(true)` stands for programs of at most 0x3B8000 bytes.
- FileSystem.ReadData: requires a well-formed image (sizes at most 1023 blocks, block numbers in range); the source does not check.
- Loader.Memory.UpdateProcessPage: for process numbers that fit the 10-bit field; the source has six.
- TerminalCode.Console.SetDisplay: the vidmap part of set_display_terminal is in `KernelCode.Processes.SetDisplay`.
- Primitives.MemCpy: addresses do not wrap around 2^32.
- Rtc.ReadsTakeTime: short of wrap-around; at the wrap `TargetMeans` says exactly what happens instead.
