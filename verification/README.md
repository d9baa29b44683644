# Structured exceptions of Odin: the lowering in `include/excpt.h`

`__try`, `__except`, `__finally` and `__leave` of Odin are macros. They expand to an exception
frame on the stack, an assembler block that links the frame into one or two chains, a `for` loop
over the frame's `state`, a jump out to a handler, and an assembler block that unlinks the frame.
The handlers (`src/kernel32/seh/sehutil.s`) copy the stack above the frame to the heap, reload the
frame's ESP, jump back to the loop to evaluate the filter, and then either bring the stack back or
unwind both chains and jump to the loop again. Around this stand the wrappers that switch FS to the
OS/2 selector 0x150b and back, and the debug wrappers that repair FS and keep a call trace.

This project models that as a small compiler and proves it: a structured meaning of programs
(`Reference`), the machine they are lowered to (`Machine`), an invariant of every reachable machine
state (`Invariant`) and a simulation between the two (`Lowering`). The main results come in two
kinds. Total results say that the machine comes to the end the structured meaning gives, for the
runs whose structured meaning is orderly (`Correctness`, `Orderly`, `Blocks`, `Variants`).
Laws say what holds of every run of the machine, orderly or not: when it halts (`Halting`) and when
it crashes (`Crashes`), what it gives back when it comes back to a stack level (`Levels`), what the
call trace has kept (`CallTrace`), what FS is (`FsRecord`, `FinalFs`), what the state loops visit and
how often handler blocks run (`FinallyRuns`, `BlockRuns`, `Visits`), who is asked (`Laws`), how runs
go on after a resumed exception (`Calls`), how long the two variants of the header go together
(`Lockstep`, `Plain`), what overwritten and left-over fields can do (`Interference`, `Scratch`).
`Answers` and `Links` say in the source's own numbers and slots what the handlers do with filter
answers and with pPrev, `Positions` says the conditions on program texts position by position, and
`Samples` runs small programs from their start to their end.
`HandlerFaults` and `Findings` are the places where the code does
something else than its text suggests. `Thread` and `CallStack` carry the machine out in place, with
the assembler blocks instruction by instruction, and tie every method to the machine's step
functions. Both variants of the header, with
`ODIN_FORCE_WIN32_TIB` (`Win32Tib`) and without (`Os2Only`), go through the same theorems.

## How to read it

* A program (`Programs.Stmt`) has observable actions, hardware faults and `RaiseException` calls,
  sequences, data-dependent branches, `__try` statements of both kinds, `__leave`, code that loads
  FS, wrapped OS/2 calls and instrumented functions, nested to any depth. Filters are arbitrary
  functions of the exception code and of everything that has happened so far.
* The record of a run (`Programs.Trace`) holds the actions, the visits of every state loop (states
  0 to 3, with the filter's answer in state 1), the FS of every native callee, changes of FS by code
  that loads it, and wrapped and instrumented calls entered and left. Equality of records is
  therefore equality of behaviour, block by block and filter by filter.
* A stack cell stands for a pending continuation with its locals; ESP counts four bytes a cell.
  A pointer to a frame is its cell's number. Chains the thread was given lie outside the stack.
* A structured run is orderly, or clean (`Orderly.OrderlyRun`, the `clean` flag of the structured
  state), if no exception is offered to a `__try` whose except or finally block is running, and no
  `__leave` ends anything but the body of a `__try/__finally`.
  `Correctness.LoweringPreservesMeaning` shows that this is the exact condition under which the
  macros mean what they say; `Orderly.QuietIsClean` gives a condition on the program text that is
  enough, and `Orderly.RaisingHandlerIsUnclean` one under which it fails.
* A step of the Win32-TIB machine is aligned (`Lockstep.AlignedAt`) if it does not meet the two
  chains apart: a fault finds the same frame at both heads, or none; a frame whose filter lets an
  exception pass is linked to the same frame in both, or to none; and a call of `RaiseException`
  finds no frame. That all steps are is the exact condition under which the two variants leave the
  same record, for every program (`Lockstep.SameRecordsIffAligned`). `Variants.AlignedRun` is the
  same condition said of the structured run, for clean programs.
* `Levels.StaysAbove(env, n, m, h)`: in the first n steps from m the stack, with what a handler has
  put aside of it, never has fewer than h cells. A statement that comes to its end is a run that
  stays above the level it was begun on and is then at `Return` on that level.
* The record names a call by the place where it was entered, so returns can be matched with
  entries even if names repeat; the call trace itself has names only.

What the OS/2 kernel does is not in the repository. Assumed: it calls handlers along the OS/2
chain from its head, with FS on the OS/2 selector, and reads a frame's pPrev after the frame's
handler has returned; `DosUnwindException` leaves the target frame at the head of the OS/2 chain;
and a resumed thread has the FS it had. The thread's Win32 selector differs from 0x150b.

## What the code does that its documentation does not say

* The handlers never look at a frame's state (`src/kernel32/seh/sehutil.s:59-137`, `347-428`). An
  exception raised in an except or finally block is first offered to the very `__try` the block
  belongs to. If that takes it, the block is run again: a finally block that is bound to fault runs
  for ever (`HandlerFaults.FinallyRaiseNeverHalts`), any other once more for every exception its own
  frame hears (`FinallyRuns.FinallyWord`). If its filter resumes it, the frame is put back into
  state 0 and the end of the block jumps to a handler that has gone
  (`HandlerFaults.ResumedBlockCrashes`). The limits listed in `include/excpt.h:9-27` do not mention
  this. These are the only ways for a program not to come to an end, and to crash: a run halts
  exactly if it starts finitely many handler blocks, and crashes exactly if a handler block ends
  when the last visit of its loop was a question that its own filter has answered with -1
  (`Crashes.EveryRun`).
* A frame that has let an exception pass stays in state 1 when an outer frame resumes it. While its
  body runs this does no harm, because the end of the body assigns the state. The end of an except
  block only increments it, so that a block whose exception has passed its own frame and was resumed
  further out is run again, though nobody has taken an exception
  (`HandlerFaults.PassedTryRunsAgain`).
* `__leave` always goes to state 2: in the body of a `__try/__except` it runs the except block, and
  in a handler block it runs that block again.
* A `__try` entered while FS is not the thread's Win32 selector (inside a wrapped OS/2 call, say) is
  put on no Win32 chain and takes no exception; a fault then skips its finally block.
* `RaiseException` called with FS on the OS/2 selector is taken by the first frame's handler for a
  call along the OS/2 chain; its return value 0 means "continue execution" to the dispatcher, so no
  filter is asked and the call returns.
* An instrumented function that returns after a call inside it was abandoned pops the abandoned
  call's entry, not its own. The length of the call trace is always right; its entries are those of
  the unreturned calls exactly if no call has returned over one that was cut off
  (`CallTrace.CallTraceLaw`).
* The OS/2 variant saves no FS: an accepted exception leaves 0x150b behind, until a wrapped or
  instrumented call that was entered before it returns (`FsRecord.FsIsOnRecord`).
* In the Win32-TIB variant the block that takes a fault begins with FS on the Win32 selector, but
  the one that takes a `RaiseException` with FS as it was at the call, whatever code had loaded
  (`FsRecord.RecordDoesNotTell`).

## Model

| member | source | states |
|---|---|---|
| Correctness.LoweringPreservesMeaning | include/excpt.h:126-240 | For every well-formed program of any nesting, both variants, every filter behaviour and every machine state that keeps the invariant: the machine comes to the end of the structured run with the same record if and only if that run is clean; otherwise its record never has the structured one as a prefix |
| Lowering.Simulate | include/excpt.h:126-331 | The simulation: from a statement the machine comes, in finitely many steps, to the end that the structured meaning gives (done, left, taken by the d-th open __try at its saved stack level, or passed on), or parts from it if the run is not clean |
| Lowering.SimAsk | src/kernel32/exceptions.cpp:377-472 | The dispatcher's walk over the frames, with its jumps into filters and back, takes the same frame as asking the open __try statements from inside out |
| Lowering.AskFrame | src/kernel32/seh/sehutil.s:372-433 | A frame's filter runs with the stack cut to the frame's ESP while the part above is kept, and its answer is recorded |
| Answers.FrameAnswers | src/kernel32/seh/sehutil.s:435-510 | A search that comes to any frame, in numbers: the frame's filter (1 for a __finally) is evaluated with the exception's code and the record so far; answer 1 leads in three steps to that frame's loop in state 2 with both chain heads on it, -1 to the raise's return with the frame in state 0 and FS as at the raise, 0 and every other to the frame's outer link with the frame in state 1; pPrev is the link in the chain that is searched, and nothing else changes |
| Answers.RaiseAnswers | include/exceptions.h:200-202 | The same from the raise on, for the frame at the head of the searched chain |
| Lowering.AnswerFrame | src/kernel32/seh/sehutil.s:435-510 | After the filter the whole stack is back; answer 1 unwinds to the frame in state 2, -1 resumes with the frame in state 0, every other answer goes on to the frame's outer link |
| Lowering.AcceptLands | src/kernel32/seh/sehutil.s:470-510 | Taking an exception leaves the machine at the loop of the taking frame, state 2, everything above it gone, FS and call trace as during the search |
| Lowering.SimHandler | include/excpt.h:181-240 | From state 2 the handler block runs and the loop ends through state 3; for a __leave in it the record parts from the structured one |
| Lowering.SimClose | include/excpt.h:181-200 | State 3 unlinks the frame, puts FS back (Win32-TIB variant) together with the head of the TIB that FS named, and ends the statement |
| Lowering.LeaveRunsHandler | include/excpt.h:237-240 | __leave always comes to the handler block of the innermost frame |
| Lowering.SwallowStep | src/kernel32/seh/sehutil.s:334-340 | With FS 0x150b the first frame's handler ends a search without asking its filter; it puts the next outer frame of the OS/2 chain into pPrev and changes nothing else |
| Levels.RunKeepsBelow | src/kernel32/seh/sehutil.s:372-433 | In every run of every program: as long as the stack, with what a handler keeps of it, does not come below a level, the cells under that level keep their contents but for pPrev, filterResult, record and state |
| Levels.StaysAboveIff | src/kernel32/seh/sehutil.s:372-433 | What staying above a level means, step by step |
| Levels.ChainsBalance | include/excpt.h:126-240 | Every statement that comes to its end, in any run and with any filters, leaves the stack's cells and both chain heads as before, also when handler blocks have raised and have run again |
| Correctness.StatementCompletes | include/excpt.h:126-240 | An orderly statement whose structured run ends normally does come to its end, with both chain heads as before |
| Levels.TryRestoresFs | include/excpt.h:185-200 | Every __try statement that comes to its end (Win32-TIB variant), in any run: FS is as at entry although exceptions may have cut off wrapped OS/2 calls, and so are both heads and the head in the TIB that FS named, also if that is the OS/2 TIB |
| Correctness.TryCompletes | include/excpt.h:185-200 | An orderly __try statement whose structured run ends normally does come to its end |
| Halting.HaltsOrRestarts | include/excpt.h:164-165 | From every reachable state of every run, clean or not, and for every k: the machine halts, or comes to have started k handler blocks more. Every step but the start of a handler block decreases the pair of what is left to do (remaining code, slots, the state of the frame's own loop) and how far the search has got |
| Halting.HaltsIffBounded | include/excpt.h:164-165 | A run halts if and only if it starts finitely many handler blocks |
| Correctness.ProgramHalts | include/excpt.h:164-165 | What clean programs halt with: finished with an empty stack and both chains as given, or with the exception on record last passed on, and the record, call trace and FS of the structured run |
| Visits.StateIsOnRecord | src/kernel32/seh/sehutil.s:435-510 | At any moment of any run the state of a frame whose handler block is running is what the last visit of its loop on record has left: 2 after a start of the block, 0 after a question answered with -1, 1 after any other |
| Crashes.CrashLaw | src/kernel32/seh/sehutil.s:435-468 | A well-formed program crashes if and only if at some moment a handler block ends whose loop was visited last, on record, for a question that its own filter answered with -1; so no unwinding passes its target, no saved ESP is wrong, the call trace never runs out and no __leave is without a loop |
| Crashes.EveryRun | include/excpt.h:126-240 | The law of all runs of well-formed programs: halted or handler blocks started again and again; halted runs have crashed exactly so, those that pass an exception on have it on record last, and those that finish have an empty stack and both chains as given |
| Correctness.ChainsAreTheFrames | include/excpt.h:135-163 | At every reachable state of every program, clean or not, each chain followed from its head is exactly the installed frames, innermost first, then the chain the thread was given |
| Correctness.LoopIsAtSavedEsp | include/excpt.h:148-156 | Whenever control is at label 0 or back from the filter, ESP equals the frame's saved ESP, in both variants |
| Invariant.StepsKeepInv | include/excpt.h:135-240 | Any number of steps of any program keeps the links, heads, saved stack levels, frame states and pending call entries in order |
| Invariant.InstallKeeps | include/excpt.h:126-167 | Installing a frame keeps the invariant and puts the old heads into the slots +60 and +44 |
| Invariant.RemoveKeeps | include/excpt.h:185-200 | Removing a frame gives both chains the heads they had below it |
| Invariant.AcceptKeeps | src/kernel32/seh/sehutil.s:470-510 | Unwinding to a frame leaves both chains headed by it |
| Invariant.UnwindReaches | src/kernel32/exceptions.cpp:486-632 | RtlUnwind, from any point further in, ends at the frame that takes the exception |
| Links.WalkRestoresChain | src/kernel32/seh/sehutil.s:334-343 | What it writes: every frame's pPrev becomes the next outer frame of the OS/2 chain, and nothing else changes; following pPrev from the head then visits exactly the installed frames, innermost first, and leads out to the given chain |
| Links.FaultLeavesOs2Chain | src/kernel32/seh/sehutil.s:334-343 | So whenever a fault has reached the Win32 dispatcher, in either variant and any run, the kernel finds the OS/2 chain in the pPrev slots |
| Invariant.WalkIsSame | src/kernel32/seh/sehutil.s:334-340 | The kernel's walk along the OS/2 chain leaves links, states, records and code positions alone |
| Laws.MachineFilterSelection | src/kernel32/exceptions.cpp:377-472 | For a raise at any point of any run the machine asks the frames on the search's chain innermost outward, each once and with the record so far, also those whose handler block is running, up to the first answer that is not "search on", which decides where it goes; all but the last asked are no __finally |
| Blocks.MachineStateDiscipline | include/excpt.h:164-240 | In orderly runs the machine's record visits a __try's loop in state 0 once, in state 1 once per question (at least once if it takes one; for a __finally exactly then, and once), in state 2 exactly if its handler block is due, in state 3 exactly if the statement ends; so an except block runs once if its own filter accepts and else not at all |
| BlockRuns.BlockWord | include/excpt.h:164-240 | In every run: the loop of a __try of either kind that comes to its end is visited in state 0, then in 1 and 2 where its filter takes an exception, in 1 where it does not, in 2 where the block is due without a question (a __leave, the end of a __finally's body, the end of the block in state 1), then in 3; the handler block has been started as often as it was taken or due |
| FinallyRuns.FinallyWord | include/excpt.h:203-240 | In every run: the loop of a __try/__finally that comes to its end is visited in state 0, then 1 and 2 for each exception heard and 2 for each end of the body or __leave, then 3; the block has run once, and once more for every exception raised in it that its own frame has heard and every __leave in it, so exactly once if and only if there was none |
| FinallyRuns.FinallySoFar | include/excpt.h:203-240 | At any moment before its end the record of such a loop is the beginning of such a word that the reasons so far demand |
| FinallyRuns.FinallyIsNotSkipped | include/excpt.h:208-214 | A __try/__finally whose frame hears every exception (FS on the Win32 selector at entry; OS/2 variant: no RaiseException): after any number of steps of any run the machine is still inside it, with no exception passed on, or has come to its end before, through the removal of its frame; so no exception, from body or block, gets past it |
| Blocks.FinallyRunsOnce | include/excpt.h:203-240 | In orderly runs such a __finally's block runs exactly once on every way out of its body, and the machine comes to the structured end |
| Calls.ResumptionIsTransparent | src/kernel32/seh/sehutil.s:458-468 | An exception answered with -1 leaves stack, chains, FS and call trace as they were and only questions on record |
| Calls.ResumptionBalances | src/kernel32/seh/sehutil.s:458-468 | The same of any raise that is resumed, also one that meets frames whose handler blocks run: stack cells, chains, FS, call trace as before, only questions on record |
| Calls.RunAfterAnyResumption | src/kernel32/seh/sehutil.s:458-468 | After any exception that is resumed (or swallowed), whichever handler blocks are running, the machine goes, step for step and for ever, as it would from the state before with the questions on record and their marks in the frames asked whose handler block runs: state 0 in the one that has resumed, state 1 in the others, and the code; the rest of the stack the same but for pPrev, filterResult, record, and the state of frames whose body runs |
| Calls.RunAfterResumption | src/kernel32/seh/sehutil.s:458-468 | The orderly case: where no frame with a running handler block is asked, the questions leave no mark at all that a later step could tell |
| Levels.WrapperRestoresFs | include/os2wrap.h:4866-4875 | Every wrapped OS/2 call or instrumented function that returns, in any run, gives the caller's exact selector and both chain heads back, whatever the call tree below did to FS |
| Calls.WrapperCompletes | include/os2wrap.h:4866-4875 | An orderly wrapper call whose structured run ends normally does return |
| Calls.NativeCalleesOnOs2 | include/os2sel.h:52-61 | In every run every native callee starts with FS 0x150b |
| CallTrace.CallTraceLaw | include/odinwrap.h:139-152 | At any later point of any run before a call pending at m returns: the call trace is the one at m and as many entries as calls were entered and have not returned; unchanged if and only if there are none; the entries are those of exactly these calls if and only if no call has returned over one that was cut off |
| CallTrace.NamesTell | src/kernel32/thread.cpp:513-534 | Said of the names the trace really holds: in that case they are the names of the unreturned calls, and if calls have different names, in no other |
| CallTrace.WholeRunCallTrace | include/odinwrap.h:228-246 | The same at every moment of every run from a start, without condition; the unreturned calls are those entered in the record and not left in it |
| CallTrace.StepsDated | include/odinwrap.h:228-246 | What CallTraceLaw asks of m holds at every moment of every run that has it at its start: every pending call was entered within the record |
| CallTrace.TidyIffExact | src/kernel32/thread.cpp:474-535 | Popping the newest entry at every return keeps the entries of the unreturned calls exactly if the record is tidy, and once they differ they never agree again |
| CallTrace.CallTraceBalance | include/odinwrap.h:139-152 | An orderly statement comes to its end with the trace as the law says |
| Orderly.CleanIsOrderly | include/excpt.h:9-27 | The flag of the structured run is the predicate: no exception is offered to a __try whose handler block is running, and no __leave ends anything but the body of a __try/__finally |
| Orderly.MeansWhatItSays | include/excpt.h:126-240 | The machine comes to where the structured run ends if and only if that run is orderly |
| Orderly.QuietIsClean | include/excpt.h:9-27 | Programs whose handler blocks raise nothing and whose __leave only ends __try/__finally bodies are orderly, whatever filters answer |
| Orderly.RaisingHandlerIsUnclean | src/kernel32/seh/sehutil.s:347-433 | A __try whose handler block comes to run and is bound to fault, under a frame that hears faults, never is |
| Lockstep.VariantsGoInStep | include/excpt.h:244-331 | Any program, clean or not, begun with any FS in either variant: as long as every step of the Win32-TIB machine so far is aligned, the two machines are at the same control, with the same record, call trace and stack level |
| Lockstep.SameRecordsIffAligned | include/excpt.h:244-331 | For every program, halting or not: the two variants have the same record step by step if and only if every step of the Win32-TIB run is aligned; if one is not, the OS/2 record becomes one with which no record of the Win32-TIB run ever begins, so running on does not make up for it |
| Lockstep.UnalignedParts | include/excpt.h:136-163 | At the first step that is not aligned (a fault, a filter that lets an exception pass, a RaiseException that is heard or swallowed) three steps of the OS/2 machine are enough for that |
| Lockstep.StepPeers | include/excpt.h:126-331 | The simulation behind it: an aligned step of one and the step of the other keep the two frame layouts alike, up to FS, heads, links and saved selectors |
| Plain.PlainGoInStep | include/excpt.h:136-163 | A condition on the text: if exceptions are the kernel's, FS is loaded only inside wrapped OS/2 calls and no __try is inside one, the variants go together for ever, whatever handler blocks raise |
| Plain.LiveIsAligned | include/excpt.h:136-163 | And one on states: where all frames were installed on the Win32 selector and no RaiseException is called, the step is aligned |
| Plain.FaultingFinallyInStep | include/excpt.h:203-240 | A program that is not clean, a finally block that faults and is run for ever: the same record in both variants at every step |
| Variants.VariantsAreEquivalent | include/excpt.h:244-331 | The total case, for programs that are clean in both variants: both halt, with the same record if and only if the structured Win32-TIB run is aligned, which is the case if and only if the machine's steps all are, and then with the same call trace and end; an aligned program that is clean in the Win32-TIB variant is clean in the other |
| Variants.AlignedAgrees | include/excpt.h:244-331 | The structured meanings agree on every aligned run, statement by statement, clean or not |
| Variants.CutOffCallIsAligned | include/os2wrap.h:4866-4875 | A fault that cuts off a wrapped OS/2 call does not set the variants apart |
| FsRecord.FsIsOnRecord | include/excpt.h:185-200 | FS at every step of every run, clean or not, is a function of the record while control is in the program or has finished, and so is the FS a search will bring back: in the OS/2 variant always; in the Win32-TIB variant if RaiseException, where a frame hears it, is called with FS on one of the two selectors. Acceptances, loads and native starts set it, returns put it back to what it was at the entry of the call, removals (Win32-TIB) to what it was at the entry of the frame; calls and frames close in the order of a stack, and FS is what the last change that nothing has undone has left, or that of the start |
| FsRecord.StepFsKept | include/os2wrap.h:4866-4875 | The invariant: every pending wrapper, function and frame has saved the FS that the record gives for its entry |
| FsRecord.KnownRaiseIsExact | src/kernel32/exceptions.cpp:377-472 | The condition is exact: where the frame at the Win32 head takes the exception of a RaiseException, or the call is swallowed, FS is then what the record says if and only if it was 0x150b or the Win32 selector at the call |
| FsRecord.RecordDoesNotTell | src/kernel32/exceptions.cpp:377-472 | Why the condition: with FS on another selector a fault and a RaiseException under one frame leave the same record and begin its block with different FS |
| FinalFs.FinishesWithFs | include/excpt.h:185-200 | FS at the end of every program that finishes, clean or not: what the record says, and that of the start if and only if no change stands (or the last that does left FS at that); and in the Win32-TIB variant always that of the start if code that loads FS only stands inside __try statements and calls |
| FsRecord.StandingFs | include/odinwrap.h:145-152 | FS as a function of nested records, in closed form: what the last change has left that no return or removal has taken back |
| Variants.Os2VariantLosesFs | src/kernel32/exceptions.cpp:377-472 | For every accepted hardware exception at any point of any run in the OS/2 variant, the machine comes to the taking frame's loop in state 2 with FS 0x150b, whatever FS was before |
| Interference.ClobberTolerance | include/excpt.h:182-193 | For every __try at every nesting level, whatever its code does and whatever FS is at entry: however the environment overwrites the Win32 fs:0 cell and all pPrev slots after each step, if the run comes to this frame's state 3 without having come below it, the removal restores FS, the OS/2 head and the head in the TIB that FS named |
| Interference.DisturbedIsSane | include/excpt.h:182-184 | What that asks of the state the __try is begun in holds throughout such runs, so it applies again and again |
| Interference.ClobberedTryCompletes | include/excpt.h:182-184 | For a __try entered with any FS that comes to its end with nothing raised before its frame is in state 3: under any such writes the removal is reached, FS and heads are restored, and control, call trace and record are the undisturbed ones |
| Interference.RaiseFreeRaisesNone | include/excpt.h:182-184 | A condition on the text for it |
| Interference.ParallelSteps | include/excpt.h:182-193 | Up to the removal such a run goes step by step with the undisturbed one, at any nesting |
| Interference.ClobberedRunRecovers | include/excpt.h:182-193 | ClobberTolerance said of arbitrary runs of states from the installation on, in which after each step any pointers may have been left in the Win32 cell and the pPrev slots |
| Interference.AnyClobberedRun | include/excpt.h:182-184 | These are all runs in which the environment, after each step, leaves any pointer in the Win32 cell and any in the pPrev slots |
| Scratch.PrevIsScratch | src/kernel32/seh/sehutil.s:349-352 | However pPrev slots of Win32-TIB frames are rewritten after any steps of any run (in blocks, during searches, in filters, orderly or not), the run goes step for step as it would: same control, FS, heads, call trace, record, and the same stack but for these slots |
| Scratch.SelfIsTwin | src/kernel32/seh/sehutil.s:349-352 | So it applies to a run of any state and the same run with the slots rewritten |
| Findings.ClobberedCellLosesTheGuards | src/kernel32/exceptions.cpp:377-396 | An exception raised while the Win32 cell holds anything but a frame is asked of no filter |
| HandlerFaults.FinallyRaiseNeverHalts | src/kernel32/seh/sehutil.s:347-433 | Any __try, in any program, whose handler block comes to run and is bound to fault, with a frame that hears faults and takes them all as every __finally does: the machine never halts, and the run is not orderly |
| HandlerFaults.FinallyRaiseRunsForever | src/kernel32/seh/sehutil.s:347-433 | It starts handler blocks more often than any number |
| HandlerFaults.RaisingFinallyFromStart | include/excpt.h:203-240 | Such a program from its start |
| HandlerFaults.ResumedBlockCrashes | src/kernel32/seh/sehutil.s:458-463 | Any __try, in any program, whose handler block comes to run and faults once, with a filter that resumes that fault: the machine ends in a jump through a stale pHandlerCallback |
| HandlerFaults.ResumedBlockFromStart | include/excpt.h:173-180 | Such a program from its start |
| HandlerFaults.PassedTryRunsAgain | src/kernel32/seh/sehutil.s:464-468 | Any __try whose handler block comes to run and faults once, with a filter that lets the fault pass and a __try further out that resumes it: the block comes to its end and is started again, with nothing else on record |
| HandlerFaults.PassedBlockFromStart | include/excpt.h:164-180 | Such a program from its start |
| HandlerFaults.PassedFrameStaysInStateOne | src/kernel32/seh/sehutil.s:464-468 | A frame that lets an exception pass is in state 1 when the search has been resumed further out |
| Findings.DeadTryTakesNothing | include/excpt.h:136-163 | At every moment of every run (Win32-TIB variant) a frame entered while FS was not the Win32 selector is no search's next frame, and no filter runs for it |
| Findings.DeadBlockIsSkipped | include/excpt.h:136-163 | In orderly runs every exception of its body goes past such a __try with no visit of its loop |
| Findings.DeadFinallyIsSkipped | include/excpt.h:203-240 | A program, from its start to its end, in which a fault inside a wrapped OS/2 call skips a finally block |
| Findings.RaiseOnOs2SelectorIsSwallowed | src/kernel32/seh/sehutil.s:274-340 | RaiseException on the OS/2 selector under any live __try returns with nothing asked |
| Findings.TraceKeepsTheWrongName | src/kernel32/thread.cpp:513-534 | A program, from its start to its end, in which the returning outer call takes the abandoned inner one's entry off and leaves its own name |
| Positions.WellFormedIff | include/excpt.h:237-240 | Which programs all this is about: a text is well-formed if and only if around every __leave in it there is a __try with no call in between (or what is around the text allows it and there is no call) |
| Positions.QuietIff | include/excpt.h:9-27 | The condition of QuietIsClean, position by position: no raise in a handler block, and no __leave but directly in the body of a __try/__finally |
| Positions.AlwaysRaisesIff | src/kernel32/seh/sehutil.s:347-433 | The condition of RaisingHandlerIsUnclean and FinallyRaiseNeverHalts: whichever branches are taken, a fault is reached under no __try of the block's own, with nothing but harmless code before it |
| Positions.IsPlainIff | include/excpt.h:136-163 | The condition of PlainGoInStep, position by position |
| Positions.KeepsFsIff | include/excpt.h:185-200 | The condition of FinishesWithFs: every place where code loads FS has a __try statement or a call around it |
| Positions.RaiseFreeIff | include/excpt.h:182-184 | The condition of RaiseFreeRaisesNone: no raise at any position |
| Positions.HardwareOnlyIff | src/kernel32/oslibexcept.cpp:283-334 | No RaiseException at any position |
| Samples.LeaveRunsFinally | include/excpt.h:237-240 | Try(Leave, Finally, Do(id)) from its start with any FS, either variant: finished, with the block run once, FS, call trace and both chains as given |
| Samples.FilterDecides | include/exceptions.h:200-202 | A fault under a __try/__except from the start of the program to its end, for each answer: 1, -1, and any other |
| Samples.OuterFinallyClaims | include/excpt.h:203-240 | A fault that the inner filter answers with 0 is claimed by the outer __finally, whose block alone runs |
| Samples.CallRunsOnOs2 | include/os2wrap.h:4866-4875 | A wrapped OS/2 call from start to end: the callee is on record with FS 0x150b, and the caller has its selector back |
| Selectors.ConversionsAreCongruent | include/os2sel.h:52-61 | The C conversions to short and USHORT change a value by a multiple of 65536 |
| Selectors.SelectorSurvivesShort | include/os2sel.h:52-61 | A selector comes back exact through the short and USHORT conversions |
| Thread.Thread.InstallWin32 | include/excpt.h:135-163 | The assembler block, in place, does what the machine's Install says |
| Thread.Thread.InstallOs2 | include/excpt.h:253-273 | Likewise, with ESP saved under one pushed word and corrected by four |
| Thread.Thread.RemoveFrame | include/excpt.h:185-200 | The removal block of either variant does what the machine's Remove says: FS back first, then the head in its TIB, then the head in the TIB of 0x150b |
| Thread.Thread.StateLoop | include/excpt.h:164-200 | One turn of the state loop |
| Thread.Thread.EndBlock | include/excpt.h:169-173 | The end of a block: assignment to the state and increment |
| Thread.Thread.LeaveTry | include/excpt.h:237-240 | __leave: state 1 and continue |
| Thread.Thread.CallHandler | src/kernel32/seh/sehutil.s:257-433 | The handler's first half at one frame |
| Thread.Thread.HandlerCallback | src/kernel32/seh/sehutil.s:435-510 | The handler's second half: 1 goes to the frame's loop in state 2, -1 returns with state 0 and FS as at the raise, any other number goes on to the outer link |
| Thread.Thread.UnwindTo | src/kernel32/exceptions.cpp:486-632 | The unwinding loop ends with the Win32 head on the target and changes no other cell |
| Thread.Thread.WalkOs2Chain | src/kernel32/seh/sehutil.s:334-340 | The loop over the OS/2 chain puts every frame's OS/2 link into pPrev and changes nothing else, so pPrev leads from the head through all installed frames to the given chain |
| Thread.Thread.RaiseException | src/kernel32/oslibexcept.cpp:283-334 | How a fault or a RaiseException call starts the search, with FS set to the Win32 selector for a fault |
| Thread.Thread.RestoreOS2FS | include/os2sel.h:52-61 | FS becomes 0x150b; a value that a short can hold is returned and converts back to the old selector |
| Thread.Thread.SetReturnFS | include/os2sel.h:63-72 | FS becomes the argument; a value that a short can hold is returned and converts back to the old selector |
| Thread.Thread.EnterWrapper | include/os2wrap.h:4866-4875 | The wrapper up to its call: the caller's selector is kept, and the callee starts with FS 0x150b |
| Thread.Thread.LeaveWrapper | include/os2wrap.h:4866-4875 | The wrapper after its call |
| Thread.Thread.Prologue | include/odinwrap.h:139-143 | FNPROLOGUE |
| Thread.Thread.Epilogue | include/odinwrap.h:145-152 | FNEPILOGUE, with its conditional repair of FS |
| Thread.Thread.Run | include/excpt.h:164-165 | Running in place is running the machine |
| Thread.Thread.RunProgram | include/excpt.h:126-240 | A clean program run in place ends, with the record, call trace and FS of its structured meaning and both chains as given |
| CallStack.CallStack.Push | src/kernel32/thread.cpp:474-501 | The table has 128 cells; the name goes into the cell of the old depth if there is one, and no other cell changes; deeper calls are counted only |
| CallStack.CallStack.Pop | src/kernel32/thread.cpp:514-535 | The newest entry goes, its cell is cleared if there is one, and no other cell changes |

## Left out

- Interference.ClobberedTryCompletes: that the removal is reached is shown for runs in which nothing is raised before, because an exception raised while the Win32 cell is overwritten may be lost (Findings.ClobberedCellLosesTheGuards); what the removal does is Interference.ClobberTolerance, without that condition.
- FsRecord.FsIsOnRecord: Win32-TIB runs in which a RaiseException is heard that was called with FS on neither selector are left out, because their record does not determine FS (FsRecord.RecordDoesNotTell).
- Thread.Thread.RaiseException: exception codes that the second-level handler does not dispatch, and its demand paging of images and mapped files, are not modelled.
- Retrying a faulting instruction: a resumed fault goes on after the raise; a fault that recurs is a further raise.
- EH_NONCONTINUABLE: an exception so marked, for which the dispatcher ignores a handler's -1 and searches on (`src/kernel32/exceptions.cpp:444-451`), and nested and collided exceptions (`452-457`).
- Loops in the guarded code: any finite number of turns is a sequence.
- Exceptions raised by filters, and with them EXC_CallHandler's own nested record, which otherwise is pushed and popped around a handler call.
- The head cell of a segment other than the two TIBs: one that was never written reads as the end of a chain.
- EBX, ESI, EDI and EBP: saved and reloaded at the places where ESP is.
- Failure of the handlers' memory allocation and their checks of stack bounds, which let the search go on.
- The unwinding calls to the handlers of skipped frames, which only write the pPrev of frames that are gone.
- What the handlers of the chains a thread was given do with an exception that reaches them.
- try/catch, return, goto, longjmp, break and continue across a block: excluded by the header.
- Log text, heap checks and profiling of the debug wrappers; argument and result values of wrapped calls.
- Writes of the environment inside a single step of the machine; the walk along the OS/2 chain and the unwinding of either chain are one step each.
- Asynchronous signals, several threads, stack corruption under the SMP kernel beyond overwritten cells.
- The many copies of one wrapper pattern, the Watcom and VAC++ forms of the FS primitives, and the rest of the repository.
