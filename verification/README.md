# Formal model of the hard parts of the mocha device tree

Four pieces of the repository do more than their size suggests. Each is modelled here and the
properties its comments and callers rely on are proved for all inputs, all runs or all interleavings.
`dafny verify dfyconfig.toml` checks everything. `Common` holds what several components share.

## The mutex and the condition variable (`libp4hread`)

A mutex is one 32-bit word with five fields; normal, recursive and errorcheck types share the code.

- `MutexWord` holds the macros on `bv32`, the five fields as a datatype, and what each bit trick does to the fields.
- `FutexMachine` is the code as a transition system over any set of threads. One step is one plain load or store,
  cmpxchg, swap, decrement, futex compare-and-sleep or futex wake of one thread; calls, spurious wake-ups, timeouts
  and the clock are steps too. A run is any sequence of enabled steps.
- `SharedMemory` is the code in its own form: an object that holds the two real words and updates them in place with
  the three atomic primitives and the C bit arithmetic. Each of its methods is proved to be exactly one step of the machine.
- `MutexOwnership` (who holds it, refinement to a simple lock), `MutexLedger` (what return codes mean),
  `MutexBalance` (locks against unlocks), `MutexOrphans` (no lost wake-up), `MutexAlone` (the fast path), `MutexProgress` (what a thread gets done by itself),
  `CondVar` (pulses, snapshots, signals), `CondWrap` (the missed signal, as a run) and `CondAnswer` (what a wait reports) are
  the results about runs.
- `Timespec` is the deadline arithmetic of the timed calls; the clock checks of `SharedMemory` go through it.

Two claims of the source do not hold as they stand. With the timed lock on a recursive or errorcheck mutex a sleeper can
be forgotten: a woken thread may find its time up and return without marking the word contended
(`MutexOrphans.TimedLockCanOrphan` shows the run, which ends with the mutex free, every other thread done, and one asleep).
`MutexOrphans.OrphanFreeIffCareful` gives the exact condition: nobody is ever
orphaned if and only if the mutex is normal or clients keep the timed lock away from it. And the comment on
condition variables speaks of a window of UINT_MAX/2 signals, "exactly"; with a step of 2 in a 32-bit word
the window is every multiple of 2^31 (`CondVar.SleepsExactlyAtWrapAround`), and for each such number there is a run in which
a waiter sleeps through that many signals (`CondWrap.SignalsCanBeMissed`).

What the proofs take for granted: memory is sequentially consistent; thread ids are 1 to 65535; a normal mutex is
unlocked, and waited with, only by its holder; nothing runs after destroy; the kernel compares and sleeps in one step, and
a wake that finds sleepers wakes one (or, for a broadcast, all). A holder that locks its normal mutex again is
allowed, and sleeps.

## Two systems on one `/data` (`bin/dualboot.sh`)

`DualData` is the volume: the live top level, the sealed `media/system-N` directories, and the `system-N.tmp` directory of
a move under way. Every rename, mkdir and rmdir consumes one unit of `power`, and when none is left the command stops
there, so a postcondition that holds for every `power` holds for a crash between any two steps. Entries carry a label saying which
system they belong to. `DualBoot` adds the boot marker, written a byte at a time, the four device nodes, and the
commands `set`, save and load. The labels (`owns`) are ghost: no code reads them.

A marker torn by a power failure reads as the old or the new choice exactly if the old marker was sound
(`DualBoot.TearingIsSafeIffSound`): what the script writes is, and so are zeros, but an arbitrary one need not be.

A top-level `mv` is taken to be atomic, `media` never moves, and no system is booted between a crash and the next command.

## dB information in TLV streams (the tinyalsa patch)

`TlvWords` holds the format's constants, `TlvParser` is the recursive descent with its unsigned wrap-around, `DbConvert` and
`DbRounding` are the mapping from a gain to a raw volume, on one entry and over a whole DB_RANGE, and `DbWords` is the code of the
mapping on words, where a read past the bytes the parser returned is an outcome of its own. `DbFormat` looks at them from the side of
the format: what is put into words, number by number, is what is found, converted and ranged. Where the documentation of the parser promises the information "if found in
the given source", the code only ever looks at the first child of a container (`TlvParser.FirstChildDecides`,
`TlvParser.SecondEntryIsMissed`); the model follows the code.

Nor does what is found always lie in the given source. A container of 1 to 4 bytes is a stub: the header of its child does not fit,
the size left wraps around, and everything is let through (`TlvParser.StubEscapes`). `TlvParser.FoundInside` proves that without a stub
on the leftmost path nothing outside the source is read or found, and `TlvParser.StaysInsideIffNoStub` that this is the exact condition.
In bytes there is one more case: the parser accepts a DB_RANGE whose size does not fill its last word, its caller copies just the
bytes returned, and the conversion then reads whole words (`DbWords.OddRangeReadsPast`). `DbWords.ReadsPastExactly` says when: if the size is
not a multiple of 4 and a segment that is visited ends in the last word.

Over a whole DB_RANGE, rounding down is right for every gain from the first bottom on if and only if no two segments share a gain
(`DbRounding.RoundsDownIffApart`); where two share one, the result stays below the later segment (`DbRounding.SharedGainRoundsLow`).
Rounding up is right for every gain that some segment reaches if and only if no segment starts below an earlier one's end
(`DbRounding.RoundsUpIffInOrder`), so segments that only touch are no problem there. On a single entry, rounding up past a muted bottom
leaves the range, and is out of order, exactly if there is a single raw value (`DbConvert.InRangeIffRoom`); over a DB_RANGE it leaves the
range exactly if the last segment in use is such an entry and its step is above what the segments before it reach
(`DbRounding.LeavesRangeIff`).

## LEDs and backlight (`liblights`)

`Lights` proves that the caches that skip writes cannot be seen from outside: the LED always shows what writing
through on every call would show. For the two backlight files this holds while writes succeed; a failed write is never repeated for the
same brightness (`Lights.FailedWriteStaysLost`), and `Lights.RunBacklight` says exactly when the files are right after any calls.

## Model

| member | source | states |
|---|---|---|
| MutexWord.UnpackInjective | libp4hread/bionic/pthread.c:161-183 | comparing two words is comparing their five fields |
| MutexWord.PackThenRead | libp4hread/bionic/pthread.c:161-183 | every field reads back from a word made of five in-range fields |
| MutexWord.ReadThenPack | libp4hread/bionic/pthread.c:161-183 | putting a word's five fields together gives the word back |
| MutexWord.UnpackPacked | libp4hread/bionic/pthread.c:161-183 | the five fields of a word are what was put at bits 31-16, 15-14, 13, 12-2 and 1-0 |
| MutexWord.FlipMeans | libp4hread/bionic/pthread.c:215-216 | the contention flip exchanges states 1 and 2 and touches no other field |
| MutexWord.CounterTestsMean | libp4hread/bionic/pthread.c:218-234 | the two mask tests hold exactly at counter 0 and at counter 2047 |
| MutexWord.IncrementMeans | libp4hread/bionic/pthread.c:571-574 | adding the counter unit below 2047 raises the counter by one and carries into no other field |
| MutexWord.DecrementMeans | libp4hread/bionic/pthread.c:707-710 | subtracting it above 0 lowers the counter by one and borrows from no other field |
| MutexWord.AtomicDecMeans | libp4hread/bionic/pthread.c:492-497 | subtracting 1 from a locked word lowers the state only |
| MutexWord.OwnerTestMeans | libp4hread/bionic/pthread.c:604-606 | the owner compare holds exactly if the owner field is the thread's tid |
| MutexWord.KindBitsMean | libp4hread/bionic/pthread.c:594-610 | the locals `mtype` and `shared` or-ed together are the free word of the mutex's kind |
| MutexWord.OwnedBitsMean | libp4hread/bionic/pthread.c:615-616 | or-ing tid and state into a free word sets just these two fields |
| SharedMemory.InitMeans | libp4hread/bionic/pthread.c:400-432 | init succeeds exactly for the three types, and gives a free mutex of that type and sharing |
| SharedMemory.PulseBitsMean | libp4hread/bionic/pthread.c:1075-1079 | the pulse expression lowers the 31-bit count by one, wrapping, and sets the shared bit to the flags |
| SharedMemory.Memory.constructor | libp4hread/bionic/pthread.c:400-432 | a free mutex word with every thread idle is an initial state of the machine |
| SharedMemory.Memory.CmpXchg | libp4hread/private/bionic_atomic_arm.h:28-48 | writes exactly if the word was as expected, and returns 0 for success |
| SharedMemory.Memory.Swap | libp4hread/private/bionic_atomic_arm.h:50-62 | writes and returns the previous word |
| SharedMemory.Memory.AtomicDec | libp4hread/private/bionic_atomic_arm.h:64-77 | decrements and returns the previous word |
| SharedMemory.Memory.Late | libp4hread/bionic/pthread.c:872-873 | the deadline check, made with the code's own second and nanosecond arithmetic, says exactly whether now is past the deadline |
| SharedMemory.Memory.AfterLoadInstr | libp4hread/bionic/pthread.c:594-615 | the branches after an entry point's first load, on bits, are those of the machine on fields |
| SharedMemory.Memory.NormalLockInstr | libp4hread/bionic/pthread.c:447-481 | each access of lock, trylock and timed lock of a normal mutex, on bits, does to the word and the thread what the machine's step does to the fields |
| SharedMemory.Memory.NormalUnlockInstr | libp4hread/bionic/pthread.c:487-537 | likewise for its unlock: the decrement, and the store that follows a contended one |
| SharedMemory.Memory.OwnerInstr | libp4hread/bionic/pthread.c:551-584 | likewise for the owner's counter loops and its releasing swap |
| SharedMemory.Memory.GrabInstr | libp4hread/bionic/pthread.c:612-646 | likewise for the attempts to take a free recursive or errorcheck mutex |
| SharedMemory.Memory.ParkInstr | libp4hread/bionic/pthread.c:648-663 | likewise for marking it contended, looking at the clock and going to sleep |
| SharedMemory.Memory.WaitInstr | libp4hread/bionic/pthread.c:1115-1147 | likewise for a condition wait up to its futex wait |
| SharedMemory.Memory.PulseInstr | libp4hread/bionic/pthread.c:1067-1098 | likewise for signal and broadcast, on the condition word |
| SharedMemory.Memory.Execute | libp4hread/bionic/pthread.c:447-952 | every access of every operation, on the real words, is the machine's step |
| SharedMemory.Memory.Go | libp4hread/bionic/pthread.c:447-952 | a thread's access with the wake-up it causes takes the whole memory to the machine's next state, and keeps the invariant |
| SharedMemory.Memory.Leave | libp4hread/bionic/pthread.c:660-662 | so does leaving a futex wait, woken, interrupted or timed out |
| SharedMemory.Memory.Start | libp4hread/bionic/pthread.c:586-594 | so does a call |
| SharedMemory.Memory.Tick | libp4hread/bionic/pthread.c:814 | so does the passing of time |
| MutexOwnership.StepGuarantees | libp4hread/bionic/pthread.c:559-570 | every step leaves a legal word, takes, nests, un-nests or releases the lock or leaves it, and to a word another thread owns does at most the change from 1 to 2 |
| MutexOwnership.Stable | libp4hread/bionic/pthread.c:703-706 | nothing another thread may do to the word spoils what a thread knows of it |
| MutexOwnership.NextKeepsInv | libp4hread/bionic/pthread.c:447-952 | every enabled action of every thread keeps the invariant |
| MutexOwnership.RunInv | libp4hread/bionic/pthread.c:447-952 | the invariant holds at every point of every run |
| MutexOwnership.MutualExclusion | libp4hread/bionic/pthread.c:447-952 | at most one thread holds the mutex at any point of any run |
| MutexOwnership.WordTellsHolder | libp4hread/bionic/pthread.c:161-303 | the kind bits never change, a normal word is its kind plus 0, 1 or 2, the word is free exactly if nobody holds the mutex, and otherwise owner and counter are the holder and its depth minus one |
| MutexOwnership.RefinesSimpleLock | libp4hread/bionic/pthread.c:447-952 | every atomic step of every run is one step of a simple lock (owner and depth) by the acting thread, or a stutter |
| MutexOwnership.OwnershipTestIsStable | libp4hread/bionic/pthread.c:604-607 | no other thread's action changes whether a thread is the owner, and on a word it owns does at most the change from 1 to 2 |
| MutexOwnership.RetryLoopsAreBounded | libp4hread/bionic/pthread.c:567-583 | a counter loop makes at most two attempts, and the second finds the word it expects |
| MutexLedger.ReturnCodesTellTheTruth | libp4hread/bionic/pthread.c:551-790 | 0 from a lock means held one level deeper, an error means unchanged; EAGAIN exactly at recursive depth 2048, EDEADLK exactly on a held errorcheck mutex, EPERM exactly for a caller that does not hold it |
| MutexBalance.DepthIsBalance | libp4hread/bionic/pthread.c:551-735 | at every point of every run a thread holds the mutex as often as its successful locks outnumber its unlocks, a wait entered without the mutex counting as a lock |
| MutexBalance.BalancedIffFree | libp4hread/bionic/pthread.c:719-728 | with no call in progress, the word has its unlocked value if and only if every thread has unlocked as often as it locked |
| MutexLedger.TryLockFailsOnHeld | libp4hread/bionic/pthread.c:760-789 | the step by which a trylock fails with EBUSY finds the mutex held and leaves it so; on a recursive or errorcheck mutex the holder is another thread |
| MutexLedger.WaitingPreservesOwnership | libp4hread/bionic/pthread.c:1110-1189 | every condition wait of a holder, whatever its type, depth, timeout and interleaving, returns holding the mutex at the depth it entered with; the outcomes for a caller that does not hold it |
| MutexLedger.TimedLockGivesUpLate | libp4hread/bionic/pthread.c:863-879 | a timed lock returns EBUSY only once its deadline is reached, on a normal mutex only once it is past |
| MutexProgress.FreeMutexIsTaken | libp4hread/bionic/pthread.c:447-952 | on all three types, a thread awake inside a lock, trylock, timed lock or relock takes a free mutex within five of its own actions, one level deeper and reporting 0; only a timed lock past its deadline may give up instead |
| MutexProgress.HeldMutexIsQueuedFor | libp4hread/bionic/pthread.c:447-952 | if another thread holds it, a lock, or a timed lock not past its deadline, sleeps on the mutex within seven of its own actions |
| MutexProgress.HeldMutexIsGivenUp | libp4hread/bionic/pthread.c:747-952 | if another thread holds it, a trylock, or a timed lock past its deadline and even asleep, has returned EBUSY within six of its own actions, its wait's end among them |
| MutexProgress.EveryCallEndsOrSleeps | libp4hread/bionic/pthread.c:447-1147 | any mutex or condition call is over or asleep within fourteen of the thread's own actions, so no loop spins by itself |
| MutexAlone.AloneIsUncontended | libp4hread/bionic/pthread.c:453-459 | while one thread is the only one to act, the word is never marked contended, it never sleeps on the mutex, and it never makes a wake for it |
| MutexOrphans.NextKeepsNoOrphan | libp4hread/bionic/pthread.c:525-533 | no action leaves a sleeper without state 2 or an awake thread that will wake it or mark the word |
| MutexOrphans.NobodyIsOrphaned | libp4hread/bionic/pthread.c:525-533 | in every run a sleeper is covered by state 2, by a wake under way, or by an awake thread about to mark the word |
| MutexOrphans.SomeoneIsAwake | libp4hread/bionic/pthread.c:525-533 | not all threads sleep on the mutex, even with timeouts and spurious wake-ups, unless the holder of a normal mutex sleeps on it by locking it again |
| MutexOrphans.QuietSleepersWaitForAHolder | libp4hread/bionic/pthread.c:525-533 | when no operation is in progress, sleepers wait for a holder that will see state 2 |
| MutexOrphans.TimedLockCanOrphan | libp4hread/bionic/pthread.c:904-940 | with the timed lock on a recursive or errorcheck mutex, a reachable state has a free mutex, one thread asleep on it, and every other thread idle |
| MutexOrphans.OrphanFreeIffCareful | libp4hread/bionic/pthread.c:447-952 | no reachable state has an orphan, if and only if the mutex is normal or the timed lock is not used on it |
| CondVar.PulseArithmetic | libp4hread/bionic/pthread.c:1023-1038 | over any run the shared bit is unchanged, and the condition word is back at its first value exactly after a multiple of 2^31 pulses |
| CondVar.SnapshotStillEqual | libp4hread/bionic/pthread.c:1032-1038 | a snapshot equals the word exactly if a multiple of 2^31 pulses came in between |
| CondVar.NextKeepsCondInv | libp4hread/bionic/pthread.c:1067-1128 | every action keeps the condition word equal to the count of pulses, every snapshot equal to the word at its time, and a holder's pulse after all its waiters' snapshots |
| CondVar.SleepsExactlyAtWrapAround | libp4hread/bionic/pthread.c:1032-1038 | a waiter at its futex wait falls asleep if and only if a multiple of 2^31 pulses (none included) came since its snapshot |
| CondVar.NoMissedBroadcast | libp4hread/bionic/pthread.c:1067-1128 | with fewer than 2^31 pulses in every window, from a broadcast's wake on nobody sleeps whose snapshot was taken before its pulse |
| CondVar.SignalFreesAWaiter | libp4hread/bionic/pthread.c:1067-1108 | a signal sent by the holder frees at least one of the threads that were already waiting, if there is one |
| CondWrap.ManySignals | libp4hread/bionic/pthread.c:1067-1098 | on a mutex of any type, any number of signals can come between a waiter's unlock and its futex wait |
| CondWrap.SignalsCanBeMissed | libp4hread/bionic/pthread.c:1032-1038 | after every multiple of 2^31 of them, a state is reachable in which the waiter sleeps and no operation is under way |
| CondAnswer.WaitAnswersTruly | libp4hread/bionic/pthread.c:1115-1147 | a finished wait reports ETIMEDOUT if and only if its first look at the clock found the deadline past or its futex wait ended by timeout; then the deadline has been reached, so a wait without one never reports it |
| CondAnswer.SleeperRunsOutAtDeadline | libp4hread/bionic/pthread.c:1123 | a sleeping wait can end by timeout exactly if it has a deadline and that has been reached |
| Timespec.Spec.SetDeadline | libp4hread/bionic/pthread.c:824-837 | a normalised deadline exactly `msecs` milliseconds after now |
| Timespec.Spec.SetRemaining | libp4hread/bionic/pthread.c:805-822 | a normalised remainder that is exactly deadline minus now, and -1 exactly if now is past the deadline |
| Timespec.TimedWait | libp4hread/bionic/pthread.c:840-879 | a timed wait has expired exactly if more than `msecs` milliseconds have gone by, and otherwise what is left is exact |
| DualData.NothingLostOrDuplicated | bin/dualboot.sh:201-238 | whenever the invariant holds, every entry of either system is in exactly one place |
| DualData.NothingMixed | bin/dualboot.sh:313-358 | no place holds entries of two systems, a sealed or moving directory holds only its own, and at most one `.tmp` exists |
| DualData.SettledIsWhole | bin/dualboot.sh:220-229 | with no `.tmp` left, each system is wholly live or wholly in its own directory |
| DualData.UnsealedRootIs | bin/dualboot.sh:234-236 | with nothing sealed, the live data is a system's own exactly if it has any or the other has none |
| DualData.OneInUse | bin/dualboot.sh:217-236 | if only one system has data, an open finds two set up exactly unless that data is what is wholly live |
| DualData.MoveOut | bin/dualboot.sh:337 | renaming one entry into the `.tmp` keeps the two halves disjoint and their union the system's data |
| DualData.MoveIn | bin/dualboot.sh:352 | so does renaming one entry back into the top level |
| DualData.Volume.CleanEmpty | bin/dualboot.sh:217-218 | removes an empty sealed directory and nothing else, in one step, keeping the invariant |
| DualData.Volume.PackInto | bin/dualboot.sh:337 | cut short anywhere, the moves leave the system split in two disjoint halves; completed, the top level is empty; they are cut short only if the power lasts for fewer moves than there are entries |
| DualData.Volume.UnpackFrom | bin/dualboot.sh:352 | likewise in the other direction |
| DualData.Volume.FinishMoves | bin/dualboot.sh:220-229 | completed, no partial move is left and each system is whole; it needs no more than one step for each entry and one rename |
| DualData.Volume.FinishMove | bin/dualboot.sh:221-229 | completed, a partial move of a system is rolled forward and both systems are sealed; cut short, the invariant holds |
| DualData.Volume.Open | bin/dualboot.sh:201-238 | after any crash keeps the invariant; completed, each system is whole in one place and dual data is enabled exactly if one is sealed, that is, if before the call a move was under way or a sealed directory had entries; it completes within a number of steps counted from the entries |
| DualData.Volume.Pack | bin/dualboot.sh:332-340 | completed, the system is sealed; cut short, the invariant holds |
| DualData.Volume.Unpack | bin/dualboot.sh:342-355 | completed, the system is live and the other sealed; cut short, the invariant holds |
| DualData.Volume.SwitchTo | bin/dualboot.sh:313-358 | completed, the chosen system is live and the other sealed; a wrong id stops it exactly if dual data is enabled; disabled, it changes nothing; the only entry it ever adds is the layout version; likewise bounded in steps |
| DualData.Volume.CreateLayoutVersion | bin/dualboot.sh:181-199 | adds the layout version to the live system if it is missing, and nothing else |
| DualBoot.MarkReads | bin/dualboot.sh:101-124 | a written marker reads back as the system it was written for |
| DualBoot.WrittenMarksAreSound | bin/dualboot.sh:101-110 | both markers that are written are sound, and so are zeros |
| DualBoot.TornMarkIsOldOrNew | bin/dualboot.sh:101-124 | a sound marker overwritten by any number of bytes is sound, and reads as the old choice up to the eleventh and as the new one from the twelfth |
| DualBoot.TearingIsSafeIffSound | bin/dualboot.sh:101-124 | over any 13 bytes, every cut-short write reads as the old or the new choice if and only if the bytes are sound |
| DualBoot.Device.WriteMark | bin/dualboot.sh:101-116 | refuses exactly ids other than 1 and 2, writing nothing; cut short, leaves some number of new bytes before the old ones |
| DualBoot.NodesInNumbers | bin/dualboot.sh:126-156 | system 1 has minors 19 and 24 behind all nodes, system 2 has 20 and 25 |
| DualBoot.Device.HackNodes | bin/dualboot.sh:126-156 | from any partial set of nodes, a completed call points all four at the chosen system, and mknod never meets an existing node |
| DualBoot.Device.Set | bin/dualboot.sh:378-386 | completed, the marker's bytes and the nodes' partition numbers are those of the chosen system and live data agrees; cut short, a sound marker reads as the old or the new choice, and nothing of either system is lost or added but the layout version; bounded in steps |
| DualBoot.Device.Load | bin/dualboot.sh:445-457 | completed, nodes and live data agree with whatever the marker says; the live data is then the chosen system's exactly if, before the call, a move was under way or a sealed directory had entries, or the chosen system has data or the other none; it completes if the power lasts for two moves of every entry and 16 more steps |
| DualBoot.RunAll | bin/dualboot.sh:378-457 | any sequence of set, save and load, each cut short anywhere, keeps the invariant and every entry, adds at most the layout version, and leaves a sound marker reading as at the start or as some set asked for |
| DualBoot.RunThenLoad | bin/dualboot.sh:445-457 | after any such sequence one completed load makes marker, nodes and live data agree, with the other system wholly sealed if both have data; the live data is the chosen system's except exactly when dual data is disabled and only the other has data; the load does complete if the power lasts for two moves of every entry and 20 more steps |
| TlvParser.ParseDbInfo | patch/external/tinyalsa/0002-miui-audio-adds-tlv.patch:139-198 | the loop over children, on words, computes the recursive parse |
| TlvParser.NeverZero | patch/external/tinyalsa/0002-miui-audio-adds-tlv.patch:159-169 | on any input at all, the parser faults, fails, or returns a positive size with a position; never 0 |
| TlvParser.FirstChildDecides | patch/external/tinyalsa/0002-miui-audio-adds-tlv.patch:159-169 | a container's answer is its first child's, whatever follows |
| TlvParser.FoundInside | patch/external/tinyalsa/0002-miui-audio-adds-tlv.patch:139-198 | in any source without stubs the parse does not fault, and what it finds is a dB entry of legal size wholly inside the source |
| TlvParser.StaysInsideIffNoStub | patch/external/tinyalsa/0002-miui-audio-adds-tlv.patch:150-161 | with nothing behind the innermost source, or behind the first stub, the parse does not fault if and only if there is no stub |
| TlvParser.StubEscapes | patch/external/tinyalsa/0002-miui-audio-adds-tlv.patch:150-161 | in a source of 12 bytes with a 4-byte container, an entry that ends at byte 24 is found |
| TlvParser.ParseWellFormed | patch/external/tinyalsa/0002-miui-audio-adds-tlv.patch:139-198 | on the encoding of any well-formed tree, anywhere in memory, the answer is the place and full size of the leftmost leaf if it is a dB entry of legal size, and -EINVAL otherwise |
| TlvParser.ExpectedIsWhole | patch/external/tinyalsa/0002-miui-audio-adds-tlv.patch:127-137 | a found entry is a dB entry of legal size that lies wholly inside the tree's own words |
| TlvParser.FoundMeansThere | patch/external/tinyalsa/0002-miui-audio-adds-tlv.patch:130-137 | success means that some leaf is a dB entry of legal size |
| TlvParser.SecondEntryIsMissed | patch/external/tinyalsa/0002-miui-audio-adds-tlv.patch:130-137 | the converse fails: a tree whose second leaf is a legal dB entry gives -EINVAL |
| DbConvert.RoundsDown | patch/external/tinyalsa/0002-miui-audio-adds-tlv.patch:332-338 | inside an entry, xdir <= 0 gives the largest raw value whose gain is not above the one asked for, in range |
| DbConvert.RoundsUp | patch/external/tinyalsa/0002-miui-audio-adds-tlv.patch:332-338 | xdir > 0 gives the smallest whose gain is not below it, in range |
| DbConvert.ScaleRoundTrip | patch/external/tinyalsa/0002-miui-audio-adds-tlv.patch:319-340 | on a DB_SCALE with a positive step the gain of a raw value converts back to it, rounding either way, except exactly for the bottom value of a muted scale above the mute gain when rounding up |
| DbConvert.EntryMonotone | patch/external/tinyalsa/0002-miui-audio-adds-tlv.patch:319-362 | a higher gain never gives a lower raw value, and both are in range; when rounding up, for entries not muted or with a second raw value |
| DbConvert.InRangeIffRoom | patch/external/tinyalsa/0002-miui-audio-adds-tlv.patch:324-329 | all gains convert into the range, and no higher gain gives a lower value, each exactly if rounding up past a muted bottom has a second raw value to go to |
| DbConvert.RangeMonotone | patch/external/tinyalsa/0002-miui-audio-adds-tlv.patch:286-318 | over any number of contiguous segments, in range and non-decreasing in the gain across segments and gaps; when rounding up, for segments not muted or with a second raw value |
| DbConvert.MixerConversion | patch/external/tinyalsa/0002-miui-audio-adds-tlv.patch:393-395 | the mixer's conversion lies between the first segment's bottom and the last clipped top, and is non-decreasing |
| DbConvert.GainRangeIsTight | patch/external/tinyalsa/0002-miui-audio-adds-tlv.patch:209-247 | the reported range covers every segment up to the limit, and its two ends are attained |
| DbConvert.SaturatesOutsideRange | patch/external/tinyalsa/0002-miui-audio-adds-tlv.patch:209-318 | for entries whose ends are in order and not below the mute gain, a gain outside the reported range converts to the lowest or the highest raw value |
| DbWords.ReadsPastExactly | patch/external/tinyalsa/0002-miui-audio-adds-tlv.patch:292-315 | the loops read past the bytes of a DB_RANGE exactly if its size is not a multiple of 4 and a segment that is visited ends in its last word |
| DbWords.ConvertSegments | patch/external/tinyalsa/0002-miui-audio-adds-tlv.patch:292-317 | the loop over the words, whose entries may have any size, computes the conversion over the segments, or reads past the bytes exactly as stated |
| DbWords.ConvertFromDb | patch/external/tinyalsa/0002-miui-audio-adds-tlv.patch:282-391 | converts a line, which it never reads past, or a DB_RANGE, and fails exactly on a DB_RANGE without a segment or too long and on an unknown kind |
| DbWords.SpanOfSegments | patch/external/tinyalsa/0002-miui-audio-adds-tlv.patch:220-246 | the loop over the words computes the reported range; it fails exactly if it comes to an unknown entry, and stores nothing exactly if there is no segment |
| DbWords.GetDbRange | patch/external/tinyalsa/0002-miui-audio-adds-tlv.patch:209-269 | reports the ends of a line, of a DB_LINEAR or of a DB_RANGE of such, and fails exactly on a DB_RANGE that is too long or comes to an unknown entry and on an unknown kind |
| DbWords.AnswerIsLegal | patch/external/tinyalsa/0002-miui-audio-adds-tlv.patch:171-193 | on any words, a successful parse points at a dB entry of legal size and returns that size and its header's |
| DbWords.ParsedIsConvertible | patch/external/tinyalsa/0002-miui-audio-adds-tlv.patch:133-137 | in any source without stubs, what is found lies inside the source and is fit for conversion and range; a line has its ends within the bytes returned, and a DB_RANGE has a segment exactly from 29 bytes on |
| DbWords.OddRangeReadsPast | patch/external/tinyalsa/0002-miui-audio-adds-tlv.patch:177-192 | the parser accepts any DB_RANGE of 21 bytes with one segment, and both loops then read past the 29 bytes it returns |
| DbFormat.FoundIff | patch/external/tinyalsa/0002-miui-audio-adds-tlv.patch:150-198 | with room for it, an entry other than a container is found, with its size and 8, exactly if its kind is 1 to 5, which are those conversion or range handle, and its size is 8 (16 for a DB_RANGE) to 256; otherwise -22 |
| DbFormat.ContainerIs | patch/external/tinyalsa/0002-miui-audio-adds-tlv.patch:156-170 | kind 0 answers as its first child, which gets the size rounded up to a multiple of 4 |
| DbFormat.EntryDecodes | patch/external/tinyalsa/0002-miui-audio-adds-tlv.patch:248-266 | an encoded entry of any size, wherever it stands, is read as the minimum, step or maximum, and mute flag put into it |
| DbFormat.ConvertScale | patch/external/tinyalsa/0002-miui-audio-adds-tlv.patch:319-340 | on the words of a scale the gain of each raw value converts back to it, except exactly for a muted bottom above -9999999 rounding up |
| DbFormat.ConvertMinMax | patch/external/tinyalsa/0002-miui-audio-adds-tlv.patch:341-362 | on the words of a min/max entry a gain between the ends is rounded down or up on the line between them, and others give the ends |
| DbFormat.RangeOfLine | patch/external/tinyalsa/0002-miui-audio-adds-tlv.patch:248-266 | on the words of a line the range goes from -9999999 or the minimum to minimum plus step times raw values, or the maximum |
| DbFormat.RangeOfLinear | patch/external/tinyalsa/0002-miui-audio-adds-tlv.patch:258-262 | a DB_LINEAR's range is its two words |
| DbFormat.ItemsDecode | patch/external/tinyalsa/0002-miui-audio-adds-tlv.patch:220-246 | the words of any list of segments, with entries of any size, are read as that list |
| DbFormat.ConvertItems | patch/external/tinyalsa/0002-miui-audio-adds-tlv.patch:286-318 | what an encoded DB_RANGE converts is the list put into it, and it fails exactly if that is empty or over 256 words |
| DbFormat.RangeOfItems | patch/external/tinyalsa/0002-miui-audio-adds-tlv.patch:215-247 | likewise for its range |
| DbRounding.RangeRoundsDown | patch/external/tinyalsa/0002-miui-audio-adds-tlv.patch:286-362 | over a DB_RANGE whose segments share no gain, a raw value of any segment is at or below the result exactly if its gain is not above the one asked for |
| DbRounding.RangeRoundsUp | patch/external/tinyalsa/0002-miui-audio-adds-tlv.patch:286-362 | rounding up over segments that overlap nowhere but may touch, it is at or above the result exactly if its gain is not below it |
| DbRounding.SharedGainRoundsLow | patch/external/tinyalsa/0002-miui-audio-adds-tlv.patch:300-306 | for any two segments that share a gain, touching or overlapping, rounding down stays below the later one although its first raw value fits |
| DbRounding.RoundsDownIffApart | patch/external/tinyalsa/0002-miui-audio-adds-tlv.patch:286-362 | rounding down gives the largest raw value of all whose gain is not above the one asked for, for every gain from the first bottom on, if and only if no two segments share a gain |
| DbRounding.RoundsUpIffInOrder | patch/external/tinyalsa/0002-miui-audio-adds-tlv.patch:286-362 | rounding up gives the smallest whose gain is not below it, for every gain reached, if and only if no segment starts below an earlier one's end |
| DbRounding.LeavesRangeIff | patch/external/tinyalsa/0002-miui-audio-adds-tlv.patch:286-362 | rounding up leaves the range for some gain if and only if the last segment in use is a muted single raw value whose step is above the mute gain and above all that the segments before it reach |
| Lights.DarkIffNotLit | liblights/lights.c:69-72 | a light counts as unlit exactly if it would show dark |
| Lights.ChannelsAre | liblights/lights.c:158-160 | a colour put together from bytes shows these bytes as red, green and blue, and counts as lit exactly if one of them is not 0 |
| Lights.WeightsAre | liblights/lights.c:74-88 | brightness weighs red, green and blue by 77, 150 and 29 of 256, and doubled by 154, 300 and 58 |
| Lights.Speaker.constructor | liblights/lights.c:164-173 | from dark LEDs the cache and the LED agree with the empty requests |
| Lights.Speaker.SetSpeakerLight | liblights/lights.c:137-162 | writes exactly if the colour changes, latches dark before a lit colour, and leaves the LED showing the colour asked for |
| Lights.Speaker.SetLight | liblights/lights.c:164-203 | changes the one source asked for, keeps the LED showing the attention light if it is lit, else the notification light if it is lit, else the battery light, and writes exactly if that colour changes |
| Lights.RunCalls | liblights/lights.c:137-203 | over any calls from dark LEDs, the LED shows what writing through on every call would show |
| Lights.HalvesFitPanels | liblights/lights.c:74-88 | the doubled brightness splits into two bytes that add up to it and differ by at most one, the lower being the plain brightness |
| Lights.Backlight.SetBacklight | liblights/lights.c:102-119 | the two files get the halves; skipped exactly if the cached value is unchanged; the second is not written after a failed first; from agreement, they agree again exactly if no write failed, or only the second did and its half is the same |
| Lights.LastWrittenMeans | liblights/lights.c:102-119 | what a file holds is the half of the last call that wrote it |
| Lights.AllWrittenAgree | liblights/lights.c:102-119 | if every write succeeds both files always hold the halves of what was asked last |
| Lights.RunBacklight | liblights/lights.c:102-119 | over any calls with any writes failing, the files hold what was asked last exactly if for each the last call that wrote it has the same half |
| Lights.FailedWriteStaysLost | liblights/lights.c:109-115 | after a failed write, asking again for the same brightness reports success and leaves the files wrong |

## Left out

- MutexOrphans.NobodyIsOrphaned: does not cover the timed lock on recursive and errorcheck mutexes, because the claim is false there; `OrphanFreeIffCareful` gives the exact condition, and mutual exclusion, return codes and deadlines are proved for it too.
- CondVar.NoMissedBroadcast: assumes fewer than 2^31 pulses in each waiter's window, because at every multiple of 2^31 the waiter does sleep, which is proved.
- CondVar.SignalFreesAWaiter: assumes that the sender holds the mutex and that waiters held it when they called; others race, as the source's comment says.
- MutexLedger.TimedLockGivesUpLate: says "reached" and not "past" for recursive and errorcheck mutexes, because there the kernel's own timeout decides.
- Timespec.Spec.SetDeadline: does not model overflow of a 32-bit `tv_sec`, nor an unnormalised deadline given by a caller.
- DbConvert.RangeMonotone: does not model overflow of `int` and `long`.
- DbWords.ConvertFromDb: does not model a DB_RANGE, a DB_LINEAR or an unknown entry nested in a DB_RANGE, where the code calls itself again, computes in floating point, or compares with a range that was not stored.
- DbWords.GetDbRange: does not model a DB_RANGE nested in a DB_RANGE, where the code calls itself again.
- DbRounding.RoundsDownIffApart: is about segments that are rising lines (a single raw value being a flat one); the code divides by the rise.
- TlvParser.ParseWellFormed: asks for sizes that can be rounded up to whole words without wrapping; the parser itself is modelled with the wrap-around.
- DualBoot.Device.Set: does not say what a torn marker reads as if the 13 bytes were neither a marker nor zeros to begin with but unsound; `TearingIsSafeIffSound` shows that it may then be neither choice.
- DualBoot.RunThenLoad: does not say that the chosen system is live while dual data is disabled and only the other has data; the code leaves `/data` alone then.
- Memory barriers, LDREX/STREX retries and weak memory: each primitive is one atomic step.
- The futex calls are an assumed specification; bionic_futex.h is not part of this model. How a timeout is reported differs between its two readers in the source, so a timed-out sleeper may either return EBUSY or load the word again.
- Everything under `#if 0` in pthread.c, destroy and what runs after it, attribute getters and setters, null checks, debug hooks.
- A condition variable's relative timeout is a deadline taken when the call begins.
- Enabling and disabling dual data, the migration of `system0` and `system1`, creating the media directory, mounting, permissions, messages.
- The layout version file is one rename-sized step, and its copy from an existing file is never reached because the same file is looked for first.
- DB_LINEAR conversion, which is floating point; card lookup, ioctl and allocation.
- Failing writes to the LED files, whose results the code ignores but the last; the button light, which is the backlight with one file.
- The repartition script, the vibrator, healthd, init, the Java classes and all configuration.
