# Packet buffers and timers, verified

This project models three stateful components of the repository and proves what
they promise:

- **Packet buffers** (`pbuf/basic/basic.c`, `pbuf/buf.c`): fragments with reference
  counts, chained through links that iterators rewrite in place, and the byte
  operations built on them.
- **The manual timer** (`timer/manual/timer_manual.c`): a clock moved by hand, whose
  callbacks call back into the timer.
- **The POSIX timer** (`timer/posix/timer_posix.c`, `timer/posix/atomic_mask.h`): a
  protocol between any number of client threads and one worker thread over atomic
  state words, per-timer locks, timer descriptors and an eventfd.

`dafny verify dfyconfig.toml` checks everything.

## How it is built

**Packet buffers.** `PbufLinks` is the theory of counted links on plain values: the
links between live fragments, the count each holds, and the multiset of references
the program owns. Storing an owned reference into a link and clearing a link are
exchanges that keep every count exact; a state with exact counts, closed and acyclic
links has nothing live but what an owned reference reaches. `PbufChains` says what
inserting, removing and cutting do to a chain as a sequence. `PbufBasic` is the code:
a class per fragment, `lastp` as "the handle's field or a fragment's link", and a pool
whose ghost ledger records links, counts and owned references; each method writes the
pointers the source writes and is tied to the sequence operations. `PbufWindows` treats
a buffer as a list of windows onto memory blocks and proves the byte laws for every
memory and every way of cutting the bytes into fragments, empty ones included.
`PbufBuf`, `PbufView`, `PbufCopy` and `PbufPut` are the loops of `buf.c` over the
iterators, each tied to a function on windows; `PbufLaws` runs them one after another and says what
becomes of the bytes and the links. A loop body that does much is a method of its own
(`...Step`, `...Turn`), so that each proof stays small.

**Manual timer.** `ManualTimerModel` gives the context as a value and client code as an
arbitrary deterministic program that is told of each event and answers with its next
call, so a callback may install, uninstall, start, restart, stop and fire timers to any
depth. `fuel` bounds how many steps are looked at; results never depend on it once they
exist. A world carries the history of what passed between timer and client, which no step
looks at. `ManualTimer` is the code over a slot array, proved to compute the model;
`ManualTimerTheorems` holds the results about advancing, and `ManualTimerHistory` says what
every return value, callback, argument and time must be by the history alone, and that
every session obeys it.

**POSIX timer.** `AtomicMask` has the retry loops themselves, run against a schedule that
gives what each weak compare-and-exchange meets. `PosixTimerModel` is a transition
system whose steps are the atomic operations, locks, system calls, callback entries and
exits of the source, with any number of clients interleaved; the fields marked as
history record generations, deadlines and counts and are never tested by a step, except
where they stand for the contract of the API (who may use a handle, and when). `gen`
grows with every restart and stop; `raced` says that calls on the timer have overlapped
since its last restart or stop that was made alone.
`PosixTimerStructure`, `PosixTimerArming`, `PosixTimerTiming` and `PosixTimerOwed` each
prove one invariant kept by every step, and the conclusions hold for every run:
`PosixTimerTheorems` has those about armings, uninstalling, slots and the poll array,
`PosixTimerEntry` what a callback may rely on when it is entered, and `PosixTimerRestart`
follows a restart made by a timer's own callback to the callback it is owed, as
`PosixTimerLost` does any other start or restart. `PosixTimerDeadlines` ties callbacks and
the kernel's timers to the delays clients pass, `PosixTimerInstalls` callbacks to
installations and armings, both by the steps of a run alone; `PosixTimerDescriptors` shows
that no descriptor leaks, and `PosixTimerEvents` what waking and stopping the worker do.
`PosixTimerExample` walks through runs in which poll reports exactly what is readable.

## Where the code differs from its description

- `gabs_pbuf_strip_tail` is described as stripping `size` bytes off the tail. When `size`
  exceeds the buffer, the subtraction of sizes wraps around and the buffer keeps all its
  bytes; `PbufWindows.TailIsStrippedIff` gives the exact condition. `gabs_pbuf_strip_head`
  with too large a size empties the buffer.
- `gabs_pbuf_view` dereferences the fragment the offset falls in, so a view needs one: an
  empty view at the very end of a non-empty buffer, or of a buffer without fragments, has
  none (`PbufWindows.ViewableIs`).
- The POSIX timer's worker tests ACTIVE and then calls the callback. A stop that clears
  ACTIVE in between returns before the callback runs, as `include/gabs/timer.h` allows for
  stop (lines 108-110); so does a restart, of which the header says nothing, and the
  callback then runs before the new deadline. `PosixTimerEntry.CallbackIsFreshIff` gives the
  exact condition, `PosixTimerExample.AStopMayComeTooLate` and `.ARestartMayComeTooLate` the
  runs. Uninstall takes the lock and is final.
- A start or restart made while the worker is at work on the timer may be lost, though it
  returns success and arms the kernel's timer: the worker's clearing of SCHED takes a bit set
  since it turned the last one into ACTIVE, and its read of a descriptor consumes an
  expiration of a restart not taken up yet. `PosixTimerLost.RestartIsLostIff` and
  `.ReadTooSoonIsLost` give the exact condition, `PosixTimerExample.ARestartMayBeLost` a run.
  A restart from the timer's own callback is never lost.
- The worker's poll array is declared with as many entries as there are timers, while the
  eventfd takes one as well: with every timer started the last entry is written past the end
  (`PosixTimerTheorems.PollArrayOverflowsIff`, `PosixTimerExample.PollArrayOverflows`).
- `mask_cas` loses the compared bit when the word holds nothing else and its first attempt
  succeeds (`AtomicMask.CasLosesLoneBit`); its only call site always has USED set as well.

## Model

| member | source | states |
|---|---|---|
| PbufLinks.LiveIsReachable | pbuf/basic/basic.c:59-78 | With counts exact and links acyclic, the live fragments are exactly those some owned reference reaches: nothing leaks and nothing dangles |
| PbufLinks.ChainExists | pbuf/basic/basic.c:64-78 | Following links from a live fragment ends: it visits a finite chain |
| PbufLinks.ChainIsDistinct | pbuf/basic/basic.c:80-94 | A chain that ends visits no fragment twice |
| PbufLinks.StoreKeepsSound | pbuf/basic/basic.c:174-175 | Storing an owned reference in a link hands back the one the link held, and keeps counts exact and links acyclic |
| PbufLinks.ClearKeepsSound | pbuf/basic/basic.c:183-198 | Clearing a link makes its reference owned and keeps everything exact |
| PbufLinks.DropKeepsSound | pbuf/basic/basic.c:72-74 | Lowering a count that is not the last gives up one owned reference |
| PbufLinks.AddKeepsSound | pbuf/basic/basic.c:59-62 | Raising a count gains one owned reference |
| PbufLinks.FreeKeepsSound | pbuf/basic/basic.c:69-77 | Freeing a fragment whose last reference is given up hands over the reference its link held |
| PbufLinks.NewKeepsSound | pbuf/basic/basic.c:8-29 | A new fragment has one owned reference and no link |
| PbufLinks.Frag.ReserveHead | pbuf/basic/basic.c:106-116 | Grows the window into the headroom by exactly that much and returns its new start; tailroom unchanged |
| PbufLinks.Frag.ReleaseHead | pbuf/basic/basic.c:118-129 | Shrinks the window at the front into headroom and returns its old start |
| PbufLinks.Frag.ReserveTail | pbuf/basic/basic.c:131-141 | Grows the window into the tailroom and returns where the gained bytes begin |
| PbufLinks.Frag.ReleaseTail | pbuf/basic/basic.c:143-150 | Shrinks the window at the back into tailroom and returns its new end |
| PbufChains.SpliceIsChain | pbuf/basic/basic.c:162-181 | After the two link writes the chain is prefix, inserted chain, suffix |
| PbufChains.SpliceKeepsSound | pbuf/basic/basic.c:162-181 | Inserting a disjoint chain keeps every count exact; the inserted handle's reference passes into the chain |
| PbufChains.UnlinkIsChain | pbuf/basic/basic.c:190-198 | After removal the chain is the old one without that fragment |
| PbufChains.UnlinkKeepsSound | pbuf/basic/basic.c:190-203 | Removing frees the chain's reference to the fragment for the decref that follows, counts exact |
| PbufChains.CutIsChain | pbuf/basic/basic.c:183-188 | Clearing the link at an iterator leaves the prefix, and the rest as a chain of its own |
| PbufChains.CutKeepsSound | pbuf/basic/basic.c:183-188 | Cutting keeps counts exact; the reference to the rest becomes owned |
| PbufChains.ExactlyUnreachableFreed | pbuf/basic/basic.c:64-78 | After frees that kept counts exact, the fragments still live are those that were reachable from the references still owned |
| PbufChains.FreedIsUnreachable | pbuf/basic/basic.c:64-78 | What a decref frees is exactly what became unreachable, all of it in the chain given up |
| PbufChains.OneFreedAtMost | pbuf/basic/basic.c:198-200 | A decref of a fragment without a link frees that one at most |
| PbufChains.ChainSurvives | pbuf/basic/basic.c:183-203 | A chain still owned survives reclamation whole |
| PbufBasic.Pool.New | pbuf/basic/basic.c:8-29 | A fresh empty fragment with its own memory, owned once |
| PbufBasic.Pool.NewRo | pbuf/basic/basic.c:31-52 | A fresh fragment that is a full window over given memory |
| PbufBasic.Pool.Incref | pbuf/basic/basic.c:59-62 | One more owned reference, counts exact |
| PbufBasic.Pool.Release | pbuf/basic/basic.c:69-77 | One turn of decref: frees exactly when the last reference goes, handing over the link's reference |
| PbufBasic.Pool.ReleaseAlong | pbuf/basic/basic.c:64-78 | The decref loop gives up one reference, frees along the chain until a count stays positive, and ends with exact counts |
| PbufBasic.Pool.Decref | pbuf/basic/basic.c:64-78 | A fragment is live afterwards if and only if a reference still owned reaches it; only the buffer's own fragments can go |
| PbufBasic.Pool.CiInit | pbuf/basic/basic.c:80-86 | The iterator at position 0 of the chain |
| PbufBasic.Pool.CiNext | pbuf/basic/basic.c:88-94 | The iterator at the next position |
| PbufBasic.Pool.CiInsert | pbuf/basic/basic.c:162-181 | The chain becomes prefix, inserted, suffix; the iterator returned is at the inserted head; counts exact |
| PbufBasic.Pool.CiRemove | pbuf/basic/basic.c:190-203 | The chain loses one fragment, which is freed if and only if no reference still owned reaches it, and only it; the iterator stays at the position |
| PbufBasic.Pool.CiDetach | pbuf/basic/basic.c:183-188 | The chain is cut at the iterator and the rest given up; what is live afterwards is what a reference still owned reaches |
| PbufView.LinkedIsHeld | pbuf/basic/basic.c:59-78 | An edit of one buffer leaves every other buffer whole, as long as a reference to it is owned and its links are not written |
| PbufWindows.ViewIsLive | pbuf/buf.c:89-131 | In any memory a view shows the slice of what its source shows then |
| PbufWindows.ViewOfView | pbuf/buf.c:89-131 | A view of a view shows what the single view at the summed offset shows |
| PbufWindows.ViewableIs | pbuf/buf.c:100-103 | A view exists exactly for ranges inside the buffer whose offset falls in a fragment |
| PbufWindows.ShrunkShows | pbuf/buf.c:193-249 | Shrinking leaves the bytes from min(offset, n) to min(offset + size, n), however they are cut into fragments |
| PbufWindows.DropHeadShows | pbuf/buf.c:201-220 | The first part of shrinking leaves the bytes from the offset on |
| PbufWindows.KeepTailShows | pbuf/buf.c:222-248 | The second part leaves the first size bytes |
| PbufWindows.SeekPastBounds | pbuf/buf.c:66-87 | Seeking stops at the first fragment ending past the offset, or at the end of a buffer that is too short |
| PbufWindows.SeekIs | pbuf/buf.c:66-87 | That position is the only one with those bounds |
| PbufWindows.HeadStrippedShows | pbuf/buf.c:251-254 | strip_head leaves the bytes after the first size, or none |
| PbufWindows.TailStrippedShows | pbuf/buf.c:256-259 | strip_tail leaves all but the last size bytes, or everything when the subtraction wraps |
| PbufWindows.TailIsStrippedIff | pbuf/buf.c:256-259 | strip_tail meets its description if and only if the buffer has that many bytes, or none |
| PbufWindows.StripsCommute | pbuf/buf.c:251-259 | Within the buffer's size, stripping head and tail commute on contents |
| PbufBuf.Size | pbuf/buf.c:7-20 | The number of bytes the buffer shows |
| PbufBuf.BufSeek | pbuf/buf.c:66-87 | The iterator and boundary of an offset |
| PbufBuf.ChainAt | pbuf/buf.c:22-46 | The new fragments come in at the fragment boundary the offset names |
| PbufBuf.ChainBack | pbuf/buf.c:48-55 | Appends the chain |
| PbufBuf.ChainFront | pbuf/buf.c:57-64 | Prepends the chain |
| PbufBuf.DropWhole | pbuf/buf.c:204-211 | Removes exactly the fragments lying wholly before the offset, each passed through decref |
| PbufBuf.KeepFirst | pbuf/buf.c:222-248 | Keeps the first size bytes and gives up the fragments after them |
| PbufBuf.Shrink | pbuf/buf.c:193-249 | The windows left are those of the slice, the fragments a contiguous run of the old ones, the counts exact |
| PbufBuf.StripHead | pbuf/buf.c:251-254 | Ties strip_head, with its wrapping subtraction, to its windows |
| PbufBuf.StripTail | pbuf/buf.c:256-259 | Ties strip_tail, with its wrapping subtraction, to its windows |
| PbufView.AppendRo | pbuf/buf.c:119-127 | Appends one read-only fragment behind the last one of the view |
| PbufView.ViewStep | pbuf/buf.c:114-128 | One turn of the view's loop: the next fragment of the source, clipped to what is left |
| PbufView.TakeView | pbuf/buf.c:89-131 | A view is a held chain of fresh fragments whose windows are those of the range; the source is untouched |
| PbufCopy.CopyTurn | pbuf/buf.c:157-169 | One turn of the copy's loop writes the next piece of the slice |
| PbufCopy.Copy | pbuf/buf.c:133-172 | Writes exactly the slice, as far as the buffer reaches, at the destination and nothing else, and returns its length |
| PbufCopy.Clone | pbuf/buf.c:174-191 | A one-fragment buffer with memory of its own showing the slice as it was |
| PbufPut.DealtConserves | pbuf/buf.c:261-279 | What the fragments gain is the input up to the sum of the tail rooms: nothing lost, repeated or reordered |
| PbufPut.DealtKeeps | pbuf/buf.c:261-279 | Each fragment keeps what it showed and gains no more than its tail room |
| PbufPut.DealtInOrder | pbuf/buf.c:269-278 | A fragment gains nothing unless those before it are full |
| PbufPut.PutIn | pbuf/buf.c:270-275 | One fragment gains the piece after its old contents; only the bytes it gained are written |
| PbufPut.UngainedShows | pbuf/buf.c:261-279 | Memory in which nothing was gained shows what it did: headroom, old bytes, other buffers in the same block |
| PbufPut.Put | pbuf/buf.c:261-279 | Deals the input over the fragments in chain order, in place; rooms stay, windows grow at their ends, and no byte changes outside what was gained |
| PbufLaws.BoundaryIff | pbuf/buf.c:34-43 | chain_at meets its assertion exactly when the offset is a fragment boundary |
| PbufLaws.SplicedShows | pbuf/buf.c:22-46 | chain_at gives the bytes before the offset, the new bytes, and the rest |
| PbufLaws.ChainBytes | pbuf/buf.c:22-46 | Splicing a buffer in at a boundary: the bytes before the offset, the spliced bytes, the rest |
| PbufLaws.ShrinkBytes | pbuf/buf.c:193-249 | After shrinking the buffer shows the slice of what it showed |
| PbufLaws.InsertThenRemove | pbuf/basic/basic.c:162-203 | Inserting a buffer and removing at the returned iterator once per inserted fragment restores the chain, its head and its links, and gives up exactly the inserted reference |
| PbufLaws.CopyTwice | pbuf/buf.c:133-172 | Copying a range in two, the second part behind the first, writes what one copy of it writes |
| PbufLaws.ViewAndClone | pbuf/buf.c:89-191 | A view and a clone taken of one range show the same bytes, the slice that a copy of it writes |
| PbufLaws.ViewFollowsSource | pbuf/buf.c:89-131 | In any later state in which the windows stand, a view shows what the range of its source shows then |
| ManualTimerModel.NextIsUnique | timer/manual/timer_manual.c:17-41 | The due slot before all others by (expiry, start order) is unique, and it is the one chosen |
| ManualTimerModel.RunLater | timer/manual/timer_manual.c:96-119 | Whatever a callback does, a waiting timer either kept its key or was armed since, ahead of the clock |
| ManualTimerModel.RunMono | timer/manual/timer_manual.c:10-15 | Results of callbacks do not depend on how many steps are looked at |
| ManualTimerModel.AdvanceMono | timer/manual/timer_manual.c:126-145 | Nor do results of advancing |
| ManualTimerTheorems.SplittingTime | timer/manual/timer_manual.c:126-145 | Advancing by a + b is advancing by a, then b: one ends iff the other does, with the same callbacks, clocks and final world |
| ManualTimerTheorems.AdvanceIsDeterministic | timer/manual/timer_manual.c:126-145 | An advance has one outcome at most |
| ManualTimerTheorems.AdvanceIsAPriorityQueue | timer/manual/timer_manual.c:126-145 | Fired keys strictly increase, each callback sees its own expiry, the clock never goes back, and nothing due is left |
| ManualTimerTheorems.OnlyArmedTimersFire | timer/manual/timer_manual.c:105-145 | Every callback of an advance is for a key waiting at its start or armed by a callback meanwhile, and no arming fires twice |
| ManualTimerTheorems.EverySessionIsOk | timer/manual/timer_manual.c:43-145 | The invariant those results need holds after any calls from a fresh context |
| ManualTimerTheorems.CallbackBound | timer/manual/timer_manual.c:126-145 | With positive delays one advance fires at most slots * (us + 1) times |
| ManualTimerTheorems.AdvanceEnds | timer/manual/timer_manual.c:126-145 | With positive delays and callbacks that return, advance ends |
| ManualTimerTheorems.ZeroDelayNeverEnds | timer/manual/timer_manual.c:105-112 | A callback restarting its own timer with delay 0 keeps advance from ending |
| ManualTimerTheorems.PassiveAdvanceSorts | timer/manual/timer_manual.c:126-145 | With passive callbacks the fired sequence is the sorted list of due timers, each once, and other slots are untouched |
| ManualTimerTheorems.RestartFiresOnTime | timer/manual/timer_manual.c:105-145 | Restarted with delay d at clock c, a timer fires just once, at c + d, if the advance that follows reaches that, and else not |
| ManualTimerTheorems.StartFiresOnTime | timer/manual/timer_manual.c:96-145 | So does one started while inactive; a start of an active one is refused with EBUSY and it fires when it would have |
| ManualTimerTheorems.StoppedDoesNotFire | timer/manual/timer_manual.c:88-145 | A timer stopped or uninstalled does not fire in an advance unless a callback of it arms it again |
| ManualTimerTheorems.SlotIsFoundAgain | timer/manual/timer_manual.c:62-94 | Install, uninstall, install finds the same slot, blank but for the new callback |
| ManualTimerHistory.EverySessionObeys | timer/manual/timer_manual.c:10-161 | In every session each call returns what the calls before it imply; each callback called is the one last installed in its slot, with its argument; and each that no call fires comes at the clock of the slot's last arming plus that call's delay |
| ManualTimerHistory.LogIsTold | timer/manual/timer_manual.c:126-145 | Each entry of an advance's log has exactly one callback called, of its slot and at its clock, and each callback that no call fires has its entry |
| ManualTimerHistory.EverySessionHeeds | timer/manual/timer_manual.c:10-15 | The history is what the client's program was told, in order, and the calls it made on hearing it: its memory is computed from it |
| ManualTimerHistory.CallsAreNoted | timer/manual/timer_manual.c:62-161 | A call adds one note, with the value it returns, unless it fires a timer |
| ManualTimer.Context.Install | timer/manual/timer_manual.c:62-86 | Takes the first unused slot and blanks it, or refuses |
| ManualTimer.Context.Uninstall | timer/manual/timer_manual.c:88-94 | The slot is inactive and unused |
| ManualTimer.Context.Start | timer/manual/timer_manual.c:96-103 | Busy and unchanged if active, else a restart |
| ManualTimer.Context.Restart | timer/manual/timer_manual.c:105-112 | Computes the restart of the model, of which RestartFiresOnTime says when the timer fires: a new place in the start order and an expiry one delay ahead of the clock |
| ManualTimer.Context.Stop | timer/manual/timer_manual.c:114-119 | Inactive, nothing else changed |
| ManualTimer.Context.NextExpired | timer/manual/timer_manual.c:17-41 | The scan finds the due slot that must fire next, or none is due |
| ManualTimer.Context.FireTimer | timer/manual/timer_manual.c:10-15 | Clears the slot, then runs its callback with all its calls, noting what the client is told (EverySessionObeys says what that must be) |
| ManualTimer.Context.Advance | timer/manual/timer_manual.c:126-145 | The loop computes the model's world, log and count |
| ManualTimer.Context.Fire | timer/manual/timer_manual.c:147-156 | Fires an active timer without moving the clock, or reports an error and does nothing |
| AtomicMask.MaskSet | timer/posix/atomic_mask.h:12-23 | Ends with one write, at one attempt, of the word met there with the mask set |
| AtomicMask.MaskSetStrict | timer/posix/atomic_mask.h:25-43 | Writes only to a word with none of the bits, or refuses having met one |
| AtomicMask.MaskClear | timer/posix/atomic_mask.h:45-56 | Ends with one write of the word met with the mask cleared |
| AtomicMask.MaskCas | timer/posix/atomic_mask.h:58-76 | Writes only to a word with all compared bits, refuses only a word without |
| AtomicMask.CasIsPlainIff | timer/posix/atomic_mask.h:64-73 | The write is the plain operation exactly unless the first attempt met the compared word itself |
| AtomicMask.CasIsPlainWhenWordHoldsMore | timer/posix/atomic_mask.h:58-76 | It always is where the word holds another bit |
| AtomicMask.CasLosesLoneBit | timer/posix/atomic_mask.h:64-67 | An input on which the compared bit is lost |
| AtomicMask.UndisturbedEnds | timer/posix/atomic_mask.h:20-22 | Two attempts in a row meeting the same word, the second not spurious, end any of the loops |
| PosixTimerModel.SetsAreMaskSets | timer/posix/timer_posix.c:21-25 | The steps set bits as the mask operations do |
| PosixTimerModel.ClearsAreMaskClears | timer/posix/timer_posix.c:71-71 | The steps clear bits as the mask operations do |
| PosixTimerModel.TestsAreMaskTests | timer/posix/timer_posix.c:87-90 | The steps test bits as the mask operations do |
| PosixTimerModel.ArmNs | timer/posix/timer_posix.c:51-62 | Arming never disarms |
| PosixTimerDeadlines.NotBeforeDelay | timer/posix/timer_posix.c:51-85 | A callback entered for the generation of a start or restart with delay d was admitted, unless calls had overlapped, no sooner than d microseconds after the step that set the time, and later than it even when d is 0 |
| PosixTimerDeadlines.KernelKeepsDelay | timer/posix/timer_posix.c:64-77 | From that step on the kernel's timer of the slot's descriptor stands at the clock then plus the delay, until another call sets or unsets it or the worker reads it |
| PosixTimerDeadlines.StoppedIsNotReadable | timer/posix/timer_posix.c:443-461 | After a stop has unset the time the slot's descriptor is not readable until a restart sets one or the slot is installed again |
| PosixTimerDeadlines.StartIsRefusedIff | timer/posix/timer_posix.c:424-436 | A start is refused, changing nothing, exactly when the timer is scheduled or active, and else becomes a restart with its delay |
| PosixTimerInstalls.EntriesAreArmed | timer/posix/timer_posix.c:64-200 | Since a timer was installed, the steps that call its callback are at most as many as those that set SCHED |
| PosixTimerInstalls.SearchMeetsEverySlot | timer/posix/timer_posix.c:125-139 | An installation's search passes only slots it met allocated; one refused met every slot so |
| PosixTimerInstalls.CallbackWasGiven | timer/posix/timer_posix.c:141-200 | A callback is called only in a slot whose last installation was asked for with one |
| PosixTimerDescriptors.NoDescriptorLeaks | timer/posix/timer_posix.c:92-173 | The descriptors open are exactly those of slots in use; with every slot free none is open |
| PosixTimerDescriptors.UninstalledIsCleaned | timer/posix/timer_posix.c:244-262 | A pass that begins once uninstall has marked the slot closes its descriptor and frees it before it polls |
| PosixTimerEvents.KicksAreTakenOnce | timer/posix/timer_posix.c:38-49 | Polls answered with the eventfd never outnumber the kicks and shutdown requests |
| PosixTimerEvents.QuietPollServes | timer/posix/timer_posix.c:325-346 | With every kick taken up, an exact poll that returns leads to the descriptors, each expired watched one marked ready |
| PosixTimerEvents.KickedPollAnswers | timer/posix/timer_posix.c:332-344 | With a kick not taken up, an exact poll answers it and a new pass begins |
| PosixTimerEvents.ReportedIsRead | timer/posix/timer_posix.c:264-298 | Every descriptor a poll reports is read before the next pass |
| PosixTimerEvents.ShutdownExits | timer/posix/timer_posix.c:314-319 | After a request to exit no pass begins, and an exact poll leads the worker out in two steps |
| PosixTimerModel.CallStep | timer/posix/timer_posix.c:64-173 | A step of a client call touches one slot and one descriptor at most and leaves the worker alone; what the steps come to is PosixTimerDeadlines, PosixTimerEvents and PosixTimerInstalls |
| PosixTimerModel.WorkerStep | timer/posix/timer_posix.c:182-347 | A step of the worker touches no call, no generation and no deadline; the test of ACTIVE and the call are two steps; what the steps come to is PosixTimerDescriptors, PosixTimerEvents and PosixTimerEntry |
| PosixTimerStructure.StructureKept | timer/posix/timer_posix.c:64-461 | Every step keeps slot ownership, lock discipline, the poll array and descriptor ownership |
| PosixTimerStructure.FoundIsOwner | timer/posix/timer_posix.c:104-123 | The slot a lookup finds is the one that pushed the descriptor |
| PosixTimerStructure.TakerIsAlone | timer/posix/timer_posix.c:205-222 | An uninstall gets its lock only when no other call, the timer's own callback included, is on the slot |
| PosixTimerStructure.CloserIsAlone | timer/posix/timer_posix.c:408-422 | While an uninstall is past its lock no other call is on the slot |
| PosixTimerStructure.InstallerIsAlone | timer/posix/timer_posix.c:125-173 | A slot being installed is in one call only |
| PosixTimerStructure.CallKeepsStructure | timer/posix/timer_posix.c:402-461 | Every step of install, start, restart, stop and uninstall keeps the structure |
| PosixTimerStructure.WorkKeeps | timer/posix/timer_posix.c:238-347 | Every step of the worker keeps the structure |
| PosixTimerArming.CountsKept | timer/posix/timer_posix.c:256-296 | Every step keeps callbacks entered or admitted and bits outstanding within the armings |
| PosixTimerTiming.TimingsKept | timer/posix/timer_posix.c:64-85 | Every step keeps scheduled and active slots tied to the latest generation and its deadline |
| PosixTimerTiming.AnswerTimed | timer/posix/timer_posix.c:325-330 | Poll reports an active slot's descriptor only once its deadline has passed |
| PosixTimerTiming.DisarmedTimed | timer/posix/timer_posix.c:71-71 | A lone restart or stop settles what overlapping calls left behind |
| PosixTimerOwed.RestartIsOwed | timer/posix/timer_posix.c:64-85 | A restart from the timer's own callback becomes owed, its deadline standing in the kernel |
| PosixTimerOwed.OwedsKept | timer/posix/timer_posix.c:238-298 | Every step keeps an owed restart pending, watched, or on its way to the callback |
| PosixTimerOwed.PendingIsUnread | timer/posix/timer_posix.c:272-280 | The descriptor of a restart not yet taken up is not read |
| PosixTimerOwed.WatchedIsReadDue | timer/posix/timer_posix.c:280-280 | The descriptor of a restart taken up is read only with its deadline passed and ACTIVE set |
| PosixTimerTheorems.ReachableInvariant | timer/posix/timer_posix.c:300-350 | All four invariants hold in every state any run reaches |
| PosixTimerEntry.AdmittedIsFresh | timer/posix/timer_posix.c:190-194 | Unless calls on the timer overlapped since its last lone restart or stop, the test of ACTIVE that admits a callback sees the latest generation, its deadline passed |
| PosixTimerEntry.EntryIsFreshIff | timer/posix/timer_posix.c:192-193 | After such a test the callback is entered for the latest generation and in time if and only if no restart or stop took its clearing step since |
| PosixTimerEntry.CallbackIsFreshIff | timer/posix/timer_posix.c:182-200 | Every callback entered in any run has such a test before it, with nothing of the worker in between, and is stale or early exactly under that condition |
| PosixTimerExample.ACallbackIsEntered | timer/posix/timer_posix.c:141-298 | Some run of install, start, one pass of the worker and an exact poll enters a callback at its deadline: the results about callbacks entered are not empty |
| PosixTimerExample.AStopMayComeTooLate | timer/posix/timer_posix.c:443-461 | A run in which a stop made alone has returned and the callback is entered after it |
| PosixTimerExample.ARestartMayComeTooLate | timer/posix/timer_posix.c:64-85 | A run in which a restart made alone has returned and the callback is entered before the new deadline |
| PosixTimerExample.ARestartMayBeLost | timer/posix/timer_posix.c:256-260 | A run in which a restart made alone has returned and the worker's clearing of SCHED has left neither bit set |
| PosixTimerExample.PollArrayOverflows | timer/posix/timer_posix.c:308-323 | A context with one slot polls two descriptors |
| PosixTimerTheorems.OneCallbackPerArming | timer/posix/timer_posix.c:256-296 | Callbacks entered never exceed armings, in every run; one about to be entered is armed for |
| PosixTimerTheorems.UninstallIsFinal | timer/posix/timer_posix.c:408-422 | When uninstall returns no callback of the timer is running, unless the caller is it, none is admitted, and none begins until the slot is installed again |
| PosixTimerTheorems.SlotOwnership | timer/posix/timer_posix.c:92-173 | ZOMBIE implies USED, USED implies ALLOC and a published slot, and without ALLOC the word is zero |
| PosixTimerTheorems.InstallsAreApart | timer/posix/timer_posix.c:125-139 | An installation takes a slot nobody has, and no two take the same one |
| PosixTimerTheorems.DescriptorsAreDistinct | timer/posix/timer_posix.c:104-123 | Slots a lookup considers have open, distinct descriptors |
| PosixTimerTheorems.LookupIsExact | timer/posix/timer_posix.c:264-298 | An alarm rings only for the slot that pushed the descriptor in this pass, whose it still is |
| PosixTimerTheorems.PollArrayOverflowsIff | timer/posix/timer_posix.c:308-323 | With the eventfd the poll array has at most one entry more than there are slots, and more entries than slots exactly when the pass pushed every slot |
| PosixTimerTheorems.CasMeetsUsed | timer/posix/timer_posix.c:246-260 | The worker's compare-and-set only meets words that hold USED as well |
| PosixTimerRestart.RestartIsNotLost | timer/posix/timer_posix.c:182-296 | After a callback's own restart sets SCHED, in every run in which no other call on the timer begins: the callback owed was entered, or the worker is on its way to it with the deadline passed, or the deadline stands unread and every poll watches it |
| PosixTimerRestart.RestartIsReadWhenDue | timer/posix/timer_posix.c:264-280 | Its descriptor is not read before the next poll, and after that only with the deadline passed and ACTIVE set |
| PosixTimerRestart.CallbackFollowsRead | timer/posix/timer_posix.c:280-296 | After the read the worker is never blocked and enters the callback for that restart within the next i + 4 of its steps, whatever others do meanwhile |
| PosixTimerLost.RestartIsLostIff | timer/posix/timer_posix.c:64-296 | A start or restart from elsewhere, its expiration not read when SCHED is set: either a step of the worker clears SCHED without having set ACTIVE, or reads the expiration without ACTIVE, and then no callback is ever entered for it; or one was, or is about to be, or the deadline stands |
| PosixTimerLost.ReadTooSoonIsLost | timer/posix/timer_posix.c:75-78 | If the expiration is read before SCHED is set, no callback is entered for it |
| PosixTimerLost.SchedIsNoticed | timer/posix/timer_posix.c:77-78 | While it is neither lost nor paid, a worker that polls watches its descriptor or is going to be woken |
| PosixTimerLost.OutsideCallbackFollows | timer/posix/timer_posix.c:280-296 | Once its descriptor is read with ACTIVE set, the worker is never blocked and enters the callback for it within i + 4 steps |

## Left out

- PbufWindows.TailStrippedShows: assumes the buffer's size and the argument below 2^64, as `size_t` values are; elsewhere sizes are unbounded and assumed to stay within `size_t`.
- PbufBasic.Pool.Incref: counts are unbounded integers, so overflow of `refcnt` is not modelled.
- PbufBasic.Pool.New: the allocator always succeeds; the paths for a failed allocation and the choice of allocator are not modelled.
- PbufView.TakeView: the range must be one a view exists for, since the source does not test it; whether the memory behind a view outlives it is its user's affair and not modelled.
- PbufCopy.Clone: asks that the range lie inside the buffer (or be empty), as the source asserts.
- PbufBuf.ChainAt: asks that the offset be a fragment boundary, as the source asserts.
- PbufPut.Put: asks that the fragments' rooms and the input do not overlap; with overlapping rooms the source would overwrite its own fragments.
- ManualTimer.Context.Advance: takes as given that the run ends (proved for positive delays in ManualTimerTheorems.AdvanceEnds); a callback that advances the clock itself is not modelled.
- ManualTimerTheorems.SplittingTime: clock values and start numbers are unbounded, so wrap-around at 2^64 is not modelled.
- PosixTimerLost.RestartIsLostIff: speaks of calls that do not overlap, and of runs in which no other call on the timer begins.
- PosixTimerTheorems.UninstallIsFinal: under the API's contract, that a handle is not used after its uninstall and that an uninstall overlaps no other call on the timer except from its own callback.
- PosixTimerTheorems.PollArrayOverflowsIff: the model's poll array is a sequence that grows as needed; what the source's write past the end of its array damages is not modelled.
- PosixTimerModel.WorkerStep: the protocol is modelled on values, one state per step, rather than as objects updated in place, because threads interleave between any two steps.
- The final store of a slot's cleanup and the destruction of its lock are one step; the source stores first, so a new installation could initialise the lock in between.
- PosixTimerRestart.CallbackFollowsRead: counts the worker's steps; that the worker keeps being scheduled, and that poll returns once a descriptor is readable, are the system's affair.
- Poll results other than POLLIN, and errors of timerfd_settime, read and write on the POSIX timer.
- gabs_timer_ctx_init and the cleanup loop of gabs_timer_ctx_deinit on the POSIX timer; only the request to exit is a step.
- The `readonly` flag of fragments, which no function reads, and buffer-level headroom and tailroom queries.
- The Zephyr backends, allocators, logging, random, mutex and semaphore wrappers, the C++ helpers and the test layer.
