# Proofs about the kernel course modules

The modules of this course that carry a protocol or an arithmetic of their own, modelled in Dafny,
with proofs over every run, schedule or input.

| file | what it models |
|---|---|
| RcuList and its companions, BookStore | `list_rcu.c`: the RCU-protected book list, memory and every single store of the list primitives explicit, one updater, any number of readers, grace periods, callbacks |
| RcuPointer | `kthread_rctest.c`, `kthread_rcasync.c`, `srcu_example.c`: one pointer under blocking, callback and sleepable reclamation |
| Barriers | `memory_barriers.c` on a machine that reorders stores and loads |
| LostUpdate | `missing_lock.c`: locked and unlocked increments |
| Refcount | `refcount_example.c`, `kref_example.c`: the life of a counted object |
| TokenPassing | `kthread_sync.c`, `kthread_sync_waitq.c`: taking turns |
| LockOrder | `lockdep_annotations.c`, `deadlock.c` |
| Seqlock | `kthread_seq.c` |
| Seccomp | `filter[]` of `seccomp_modes.c`, with an interpreter and the validity check of classic BPF |
| Words, UserWalk | `userwalk.c`: page walk, addresses and the loop through the direct map |
| CrashDump | `panic_notifier.c` |
| Tracers | `func_latency.c`, `lock_contention.c`, `memleak_tracker.c` |
| Slab | `safe_alloc.c` |
| Runs | runs of a step function, and how an invariant carries over them |

Every concurrent module has the same shape. A `State` holds what the threads share and where each
of them is; `Step(state, event)` is total, and an event that cannot happen changes nothing, so a
run is any sequence of events. An invariant is proved step by step, and the theorems speak about
the state after an arbitrary run. A class beside it has the source's variables as fields and the
invariant as `Valid()`; each of its methods does one atomic piece of the source in place, keeps the
invariant, takes exactly the step of the model, and says what that means for the other threads.
Kernel primitives (mutex, spinlock, semaphore, wait queue, `synchronize_rcu`, `call_rcu`, reference
counts, BPF maps, slab cache, page-table tests) are steps with their documented meaning; their code
is not part of this model. Fields called history are written but
never consulted by a step: that is proved for the book list, the RCU pointer and the seqlock
(the three lemmas `HistoryIsPassive`), and in the classes of the tracers those fields are ghost.

What the proofs found out about the code:

- `filter[]` jumps one past its end on a foreign architecture (`jf` 7), so it does not pass the
  kernel's jump check; the layout is right with `jf` n + 1, for up to 254 numbers.
- `Is_borrowed` has no break: after a borrow it can deny it, exactly when a later book with the
  same id is available (two additions under one id are enough). Without a match its result is never
  set (`Unset` here).
- `kthread_rcasync.c` says at line 100 that it waits for all callbacks; `synchronize_rcu` does not.
  Its exit, and that of `srcu_example.c`, are sure to leave no object behind only if no callback is
  queued and, in the former, nothing is published; waiting for the callbacks would do.
- `kthread_sync.c` and `kthread_sync_waitq.c` can hang on unload, from every state before it. The
  consumer is sure to exit iff `kthread_stop(cthr)` reaches it before it has fallen asleep.
- The kref variant depends on stopping its threads first; the refcount variant does not.
- Addresses of huge pages printed by `userwalk.c` keep bits 52 to 63 of the entry, so that of a page
  that may not be executed has bit 63 set.
- `userwalk.c` walks, and rewrites, pages the processor would fault on: exactly those whose entry is
  absent but has the PROT_NONE bit (4KB) or the size bit (2MB, as `pmd_leaf` looks at that bit
  alone; 1GB, only printed, with the kernel's newer `pud_leaf`). A valid address counts as written even when the
  walk fails.
- The text it rewrites goes on in the physically next page, exactly when fewer than nine bytes are
  left, no NUL comes before the end of the page, and there is a lower-case letter behind it.
- `crash_dump_append` counts a message it cut in full, so the reported size is wrong exactly when
  some message was cut. None of the panic handler's own messages is: with the field sizes there are,
  they fit, and its dump and size are complete.
- A latency of 0 makes `func_latency.c` forget its minimum (calls of 0 and 5 ns leave 5), and its
  bucket number is cut to 32 bits before it is capped (42949672960000 ns count in bucket 0).
- A free object of `safe_alloc.c` carries 0x12345678 instead of `NET_MAGIC` once it has been freed.

## Model

| member | source | states |
|---|---|---|
| RcuListTheorems.NeverFaults | sync/part3/list_rcu.c:32-210 | no interleaving of the updater, one store at a time, with any number of readers and callbacks loads, stores or frees unallocated memory or retires a book twice |
| RcuListTheorems.ReadersAreSafe | sync/part3/list_rcu.c:111-136 | after every run, every node reachable along next pointers from a reader that is under way is allocated, however many books were replaced or deleted under it |
| RcuListTheorems.PathIsSafe | sync/part3/list_rcu.c:93-104 | from any place a reader may stand on, following next pointers stays on places where it may stand |
| RcuListTheorems.FreedWhenUnused | sync/part3/list_rcu.c:99-104 | memory is given back only when the grace period of an unlinked book is over: it is not listed and no reader is on it |
| RcuListTheorems.FreedWithoutReaders | sync/part3/list_rcu.c:99-104 | when no reader is under way every queued callback frees its book, and a waiting updater frees its own and is done |
| RcuListTheorems.NothingLeaks | sync/part3/list_rcu.c:32-210 | between two calls nothing is allocated but the head, the listed books and what waits for its callback |
| RcuListTheorems.TraversalIsComplete | sync/part3/list_rcu.c:116-119 | a finished traversal has seen every book that was listed all the time, as original or as copy, exactly once, and everything in list order |
| RcuListTheorems.VisitsAreCurrent | sync/part3/list_rcu.c:116-119 | whatever a traversal saw was on the list with exactly that content at some moment of its read-side section |
| RcuListTheorems.TraversalEnds | sync/part3/list_rcu.c:116-119 | a traversal is finished after boundedly many moves, whatever the updater does meanwhile |
| RcuListTheorems.StepContinues | sync/part3/list_rcu.c:116-119 | every event keeps what a reader has seen and drops a book from "listed throughout" only when it is unlisted |
| RcuListTheorems.Reached | sync/part3/list_rcu.c:32-210 | the invariant of memory, grace periods, stale nodes, readers and updater holds after every run |
| RcuListPublish.AddPublishes | sync/part3/list_rcu.c:53-55 | the publishing store of list_add_rcu, between any two reader steps, keeps the whole invariant |
| RcuListPublish.ReplacePublishes | sync/part3/list_rcu.c:93-95 | so does that of list_replace_rcu: the original becomes a stale node that still leads onwards |
| RcuListPublish.DeleteUnlinks | sync/part3/list_rcu.c:195-196 | so does that of list_del_rcu, even for readers standing on the unlinked book |
| RcuListPublish.CallbackKeeps | sync/part3/list_rcu.c:32-38 | a callback may free its book at any moment of any call of the updater |
| RcuListPublish.SyncingKeeps | sync/part3/list_rcu.c:102-103 | freeing after synchronize_rcu keeps the invariant |
| RcuListHistory.HistoryIsPassive | sync/part3/list_rcu.c:32-210 | runs that differ only in the recorded history take the same steps on memory, updater and readers |
| RcuListCatalogue.CallIsAtomic | sync/part3/list_rcu.c:59-210 | a Borrow, Return or Delete call under every interleaving leaves the catalogue as the sequential call does, or unchanged when there is no memory for the copy |
| RcuListCalls.AddIsAtomic | sync/part3/list_rcu.c:40-57 | an addition under every interleaving leaves the given record, available, in front of the catalogue, or the catalogue unchanged when there is no memory |
| RcuListCalls.AnswerWasTrue | sync/part3/list_rcu.c:124-136 | under every interleaving Is_borrowed answers with a flag that a listed book of this id had at some moment of its section, and leaves its result unset only if no book of this id was listed throughout |
| RcuListCalls.UndisturbedTraversal | sync/part3/list_rcu.c:111-121 | a reader that enters and walks while nobody else acts sees exactly the listed records, in order, in one move for each and one more |
| RcuListCatalogue.ReplaceTakesEffect | sync/part3/list_rcu.c:93-95 | the publishing store of a replacement is the whole effect of the call: one flag flipped in place |
| RcuListCatalogue.DeleteTakesEffect | sync/part3/list_rcu.c:195-196 | the publishing store of a deletion drops the first match |
| RcuListCatalogue.OthersKeepContents | sync/part3/list_rcu.c:32-210 | no other step of anybody changes the listed records |
| RcuListCatalogue.FailsUnchanged | sync/part3/list_rcu.c:67-82 | a call without its book, or on a book in the wrong state, changes nothing |
| RcuListCatalogue.SucceedsExactly | sync/part3/list_rcu.c:67-82 | a call succeeds iff the first book with the id is there and, to be borrowed, is available or, to be returned, is borrowed |
| RcuListCatalogue.ApplyChangesOneBook | sync/part3/list_rcu.c:90-94 | a successful call flips one flag at an unchanged position, or drops one book, and leaves every other book alone |
| RcuListCatalogue.ReturnUndoesBorrow | sync/part3/list_rcu.c:138-186 | Return after a successful Borrow restores the catalogue; a second Borrow fails |
| RcuListCatalogue.BorrowedIsReported | sync/part3/list_rcu.c:124-136 | the query after a borrow says "borrowed" iff no later book with the same id is available (it does not stop at the first match) |
| RcuList.FirstMatch | sync/part3/list_rcu.c:67-77 | the search stops at the first book with the id, or at the end |
| RcuList.Clip | sync/part3/list_rcu.c:48-49 | strncpy keeps the string, or its first 64 characters if it is longer |
| BookStore.Store.AddBook | sync/part3/list_rcu.c:40-57 | in place: in front of the old books stands one with this id, this name and this author, each cut at 64 characters, and not borrowed; one more address is in use; without memory nothing changes |
| BookStore.Store.BorrowBook | sync/part3/list_rcu.c:59-108 | in place: result 0 iff the book is there, available and there is memory; then the catalogue is that of the sequential call; no call leaks memory beyond the queued callbacks |
| BookStore.Store.ReturnBook | sync/part3/list_rcu.c:138-186 | the same for Return |
| BookStore.Store.DeleteBook | sync/part3/list_rcu.c:188-210 | in place: the first match is gone, freed at once or queued; without a match nothing changes |
| BookStore.Store.ListBooks | sync/part3/list_rcu.c:111-121 | with nothing else running the loop lists all records in order |
| BookStore.Store.IsBorrowed | sync/part3/list_rcu.c:124-136 | the loop answers with the flag of the last match, and with nothing iff there is none |
| BookStore.DenyBorrow | sync/part3/list_rcu.c:124-159 | two additions under one id, then a borrow that returns 0: the query answers "not borrowed" |
| BookStore.Store.Find | sync/part3/list_rcu.c:67-82 | the search loop ends, with the first match exactly when the call can succeed |
| BookStore.Store.ListAddRcu | sync/part3/list_rcu.c:54 | the four stores of list_add_rcu prepend the book |
| BookStore.Store.ListReplaceRcu | sync/part3/list_rcu.c:94 | the five stores of list_replace_rcu apply the call to the catalogue |
| BookStore.Store.ListDelRcu | sync/part3/list_rcu.c:195 | the three stores of list_del_rcu do so |
| BookStore.Store.Reclaim | sync/part3/list_rcu.c:99-104 | the unlinked book is freed after its grace period, or queued |
| BookStore.Store.CopyBook | sync/part3/list_rcu.c:84-91 | the copy is private, and the catalogue untouched |
| RcuPointer.NeverFaults | sync/part3/kthread_rcasync.c:25-104 | for blocking, callback and SRCU reclamation, in every run: no access to a freed object, no double free, and allocated objects are exactly the published, private, just replaced and retired ones |
| RcuPointer.ReadsAgree | sync/part3/srcu_example.c:61-81 | what a reader has read was the published value at some moment of its section, and both reads around its sleep agree |
| RcuPointer.BlockingBound | sync/part3/kthread_rctest.c:29-46 | the blocking updater never has more than two unfreed objects |
| RcuPointer.AfterExit | sync/part3/srcu_example.c:157-179 | what is still allocated after module exit is exactly what is queued for a callback; nothing in the blocking variant |
| RcuPointer.NothingLeftExactly | sync/part3/kthread_rcasync.c:80-104 | an exit that the threads let through is sure to leave nothing, whichever callbacks get to run during its wait or after it, iff no callback is queued before it and, with call_rcu, the pointer is null |
| RcuPointer.LeftAfterExit | sync/part3/kthread_rcasync.c:90-101 | what is allocated after the exit and any callbacks is exactly what was queued at the exit, its own object included, less what has run; so waiting for all callbacks would leave nothing |
| RcuPointer.HistoryIsPassive | sync/part3/srcu_example.c:61-81 | runs that differ only in the recorded values do the same |
| RcuPointer.CallbacksMayOutliveTheModule | sync/part3/kthread_rcasync.c:97-101 | synchronize_rcu is no barrier for callbacks: the last object can survive the exit |
| RcuPointer.SleepableMayLeaveToo | sync/part3/srcu_example.c:94-179 | so can the SRCU variant, with the object its updater replaced last |
| RcuPointer.Module.UpdaterRound | sync/part3/srcu_example.c:94-114 | in place: the new object is published, the old one freed or queued after the readers have left; a failed allocation changes nothing |
| RcuPointer.Module.Reclaim | sync/part3/kthread_rctest.c:42-46 | the replaced object is freed or queued, nothing else |
| RcuPointer.Module.Dereference | sync/part3/kthread_rcasync.c:62-63 | the loaded pointer is null or allocated |
| RcuPointer.Module.ReadValues | sync/part3/srcu_example.c:64-72 | the values read in one section, before and after the sleep |
| RcuPointer.Module.ReaderRound | sync/part3/srcu_example.c:61-77 | one reader round reads the current value, twice under SRCU |
| RcuPointer.Module.FreeCallback | sync/part3/kthread_rcasync.c:25-29 | a callback frees its own object only |
| RcuPointer.Module.ModuleExit | sync/part3/kthread_rcasync.c:80-104 | what the exit frees and what it leaves queued |
| Barriers.FreshWithBoth | sync/part5/memory_barriers.c:32-64 | with both barriers, whatever is reordered, data used after seeing the flag of a round is from that round or a later one and never the initial 0 |
| Barriers.PrintsStoredData | sync/part5/memory_barriers.c:32-64 | with both barriers every printed value is 100 and the number of a round whose data the producer had stored by then, no earlier than the round of the flag seen |
| Barriers.PrintsWhatItLoaded | sync/part5/memory_barriers.c:56-64 | whatever the barriers and whatever happens meanwhile, an iteration prints the data found in memory at its load iff the flag found at its load was set |
| Barriers.PrintsWhatItLoadedFirst | sync/part5/memory_barriers.c:56-64 | the same with the loads in the other order, where no smp_rmb forbids it |
| Barriers.RoundStores | sync/part5/memory_barriers.c:32-42 | the stores of one producer round, in order |
| Barriers.OldestDrains | sync/part5/memory_barriers.c:33-42 | the oldest entry can always leave the store buffer, and is then in memory |
| Barriers.BarriersExactlyNeeded | sync/part5/memory_barriers.c:32-64 | all runs are fresh if and only if both barriers are there |
| Barriers.StaleWithoutWmb | sync/part5/memory_barriers.c:33-37 | without smp_wmb some run uses the initial data |
| Barriers.StaleWithoutRmb | sync/part5/memory_barriers.c:57-62 | without smp_rmb some run uses the initial data |
| Barriers.FlagDrains | sync/part5/memory_barriers.c:35-37 | a flag store that can reach memory finds its data there |
| Barriers.Shared.ProducerStatement | sync/part5/memory_barriers.c:32-44 | what each statement of the producer appends to the store buffer; the flag of a round goes in, with both barriers, behind a fence that stands behind data of that round; the invariant is kept |
| Barriers.Shared.DrainEntry | sync/part5/memory_barriers.c:33-42 | the store buffer gives up an entry iff no fence and no earlier store to its location is before it; with both barriers a flag visible as set finds data of its round or later in memory |
| Barriers.Shared.ConsumerStatement | sync/part5/memory_barriers.c:56-64 | a load finds what is in memory; only the end of an iteration prints, and the value that was loaded; with both barriers that is fresh and had been stored |
| Barriers.Shared.Interleave | sync/part5/memory_barriers.c:26-71 | any interleaving of both threads and the memory system is a run of the model, and with both barriers prints only fresh data that had been stored |
| Seccomp.ShippedIsLayout | security/part1/seccomp/seccomp_modes.c:167-189 | filter[] is the layout for read, write, exit and exit_group with a foreign jump of 7 |
| Seccomp.ShippedIsRefused | security/part1/seccomp/seccomp_modes.c:172 | that jump leads past the end, so the filter as shipped fails the jump check; with jump n + 1 it passes |
| Seccomp.InstallableExactly | security/part1/seccomp/seccomp_modes.c:167-194 | the layout passes the check iff it has at most 4096 instructions and the foreign jump, in eight bits, is at most n + 2 |
| Seccomp.CheckedDecides | security/part1/seccomp/seccomp_modes.c:167-189 | a program that passes the check always ends in one of its own return instructions |
| Seccomp.ShippedDecides | security/part1/seccomp/seccomp_modes.c:167-189 | filter[] on x86_64 (0xC000003E) allows exactly the calls 0, 1, 60 and 231 and fails the rest with EPERM; elsewhere it runs off its end |
| Seccomp.X86Path | security/part1/seccomp/seccomp_modes.c:179-188 | on x86_64 a call is allowed iff it is listed (at most 255 numbers) |
| Seccomp.X86Exactly | security/part1/seccomp/seccomp_modes.c:179-188 | for lists without repetition that is right iff at most 255 numbers are listed: jump offsets have eight bits |
| Seccomp.ForeignPath | security/part1/seccomp/seccomp_modes.c:171-188 | where every value of the foreign jump leads, and what is decided there |
| Seccomp.ForeignDeniedExactly | security/part1/seccomp/seccomp_modes.c:171-188 | every foreign architecture is denied iff the jump leads to the deny or into compares that cannot match |
| Seccomp.LayoutRightExactly | security/part1/seccomp/seccomp_modes.c:167-189 | the whole layout decides every call as the list says iff at most 254 numbers are listed |
| Seccomp.LayoutRight | security/part1/seccomp/seccomp_modes.c:167-189 | up to 254 numbers, also repeated ones: it is right and installable |
| UserWalk.WalkTranslates | vm/p3_usertrans/userwalk.c:102-216 | on entries as the kernel writes them, unless the way ends in an inaccessible entry: the walk fails exactly where there is no translation; its address is the translation on the low 52 bits, in full iff the huge entry has nothing above them; the text rewritten is at the translation |
| UserWalk.FailsExactly | vm/p3_usertrans/userwalk.c:102-210 | kernel and processor agree on failure iff the way ends neither in an absent pte with the PROT_NONE bit nor in an absent large page whose size bit is set (pmd_leaf looks at that bit alone; pud_leaf in one of the two kernel versions) |
| UserWalk.WalksInaccessible | vm/p3_usertrans/userwalk.c:132-210 | there nothing is mapped, and yet the walk rewrites the page, or prints a 1GB one |
| UserWalk.ProtNoneIsRewritten | vm/p3_usertrans/userwalk.c:156-210 | two such tables: pmd 0x200180 and pte 0x5100 |
| UserWalk.AbsentGigabyteIsPrinted | vm/p3_usertrans/userwalk.c:129-136 | pud 0x40000180 on a newer kernel: an address is printed though nothing is mapped; an older one fails |
| UserWalk.NoExecuteIsPrinted | vm/p3_usertrans/userwalk.c:156-158 | a 2MB page that may not be executed is printed with bit 63 set |
| UserWalk.HugeAddress | vm/p3_usertrans/userwalk.c:132-158 | a huge page's address keeps bits 52 to 63 of the entry |
| UserWalk.SubPageIs | vm/p3_usertrans/userwalk.c:167-171 | page of the leaf plus pages into it plus bytes into that page is its base plus the full offset |
| UserWalk.SeenRaised | vm/p3_usertrans/userwalk.c:178-183 | in the page of the address, exactly the bytes 97 to 122 of the text a program sees there, up to its NUL, nine bytes or the end of the page, are 32 less |
| UserWalk.UserspaceIsRaised | vm/p3_usertrans/userwalk.c:241-245 | "userspaces" becomes "USERSPACEs" |
| UserWalk.PageSpillExactly | vm/p3_usertrans/userwalk.c:178-183 | no byte outside that page is changed iff nine bytes fit, or a NUL comes before its end, or the text behind it has no lower-case letter |
| UserWalk.SpillExactly | vm/p3_usertrans/userwalk.c:241-245 | the same for any range of memory the loop begins in |
| UserWalk.CrossingSpills | vm/p3_usertrans/userwalk.c:241-245 | "ab" across a page end: the second letter is raised in the physically next page |
| UserWalk.RaisedTwice | vm/p3_usertrans/userwalk.c:178-183 | doing it again changes nothing |
| UserWalk.SamePage | vm/p3_usertrans/userwalk.c:102-197 | addresses in one page share their translation up to the offset |
| UserWalk.FoundIffCovered | vm/p3_usertrans/userwalk.c:48-53 | the area find_vma gives starts at or below the address iff some area holds it |
| UserWalk.FindVma | vm/p3_usertrans/userwalk.c:48 | the first area that ends above the address |
| UserWalk.UserWalker.RaiseText | vm/p3_usertrans/userwalk.c:241-245 | the loop leaves memory with the bytes 97 to 122 of the text at the address 32 less, and every other byte as it was |
| UserWalk.UserWalker.WalkUserspacePageTable | vm/p3_usertrans/userwalk.c:78-254 | result, printed address and memory are those of the walk, and every exit gives the lock back |
| UserWalk.UserWalker.ValidateUserAddress | vm/p3_usertrans/userwalk.c:37-72 | succeeds iff some area holds the address; the lock is given back |
| UserWalk.UserWalker.VaddrWrite | vm/p3_usertrans/userwalk.c:256-311 | the result and status of every case; a valid address counts as written even when the walk fails |
| Words.AndRange | vm/p3_usertrans/userwalk.c:132-216 | masking with consecutive bits takes that field, in place |
| Words.BitAnd | vm/p3_usertrans/userwalk.c:104-206 | the operator & is the conjunction of bits |
| Words.BitOr | vm/p3_usertrans/userwalk.c:132-216 | the operator | is the disjunction of bits |
| Words.OrDisjoint | vm/p3_usertrans/userwalk.c:132-216 | joining high and low bits is their sum |
| LostUpdate.FinalValuesExactly | debug-lkms/buggy-modules/locking/missing_lock.c:26-44 | k threads of n unlocked increments can end with exactly the values from 2 (for two threads and increments or more) to k * n |
| LostUpdate.BoundsHold | debug-lkms/buggy-modules/locking/missing_lock.c:33-40 | every finished schedule ends within these bounds |
| LostUpdate.Schedule | debug-lkms/buggy-modules/locking/missing_lock.c:33-40 | for every value within them there is a schedule that ends with it |
| LostUpdate.LockedExact | debug-lkms/buggy-modules/locking/missing_lock.c:46-65 | with the lock, at every moment the counter is the number of increments done, it ends at k * n, and until then some thread can step |
| LostUpdate.Race.Run | debug-lkms/buggy-modules/locking/missing_lock.c:26-44 | any schedule of the unlocked threads, in place, ends within the bounds |
| LostUpdate.Race.LoadCounter | debug-lkms/buggy-modules/locking/missing_lock.c:35 | the load changes nothing others see, and what it reads is the counter of this moment |
| LostUpdate.Race.StoreCounter | debug-lkms/buggy-modules/locking/missing_lock.c:35 | the store completes one increment, and the number of lost increments changes by the counter now less the value loaded |
| LostUpdate.LockedRace.Run | debug-lkms/buggy-modules/locking/missing_lock.c:46-65 | any schedule of the locked threads, in place, counts exactly |
| LostUpdate.LockedRace.Advance | debug-lkms/buggy-modules/locking/missing_lock.c:53-61 | the counter grows by exactly the increments completed, the owner of the lock is never held up, and a thread inside is there alone |
| Refcount.CountIsHolders | sync/part5/refcount_example.c:38-57 | before the exit section the count is one more than the threads holding a reference, and the pointer is set |
| Refcount.FreedOnce | sync/part5/refcount_example.c:52-57 | no access to a freed object, freed at most once, at count zero, never while held, also when the exit path runs among the threads |
| Refcount.NoLeak | sync/part5/refcount_example.c:139-157 | when the threads have stopped and the exit path is through, the object has been freed |
| Refcount.UseAddsNumber | sync/part5/refcount_example.c:80-100 | from every reachable state before the exit, a thread that finds the object active and is not disturbed adds its number exactly once and leaves count, lock and everyone else as they were |
| Refcount.InactiveIsLeftAlone | sync/part5/refcount_example.c:92-97 | one that finds it inactive gives its reference back and leaves the value alone |
| Refcount.ExitEnds | sync/part5/refcount_example.c:148-155 | an exit path that is let through ends with the pointer cleared, and has freed the object iff no thread holds a reference |
| Refcount.NothingAfterExit | sync/part5/refcount_example.c:38-50 | after it a thread gets nothing and changes nothing |
| Refcount.SafeExactly | sync/part5/kref_example.c:121-136 | every run is safe iff the pointer is guarded by lock and inc_not_zero or the threads are stopped first |
| Refcount.FaultWithoutJoin | sync/part5/kref_example.c:60-63 | the kref variant without stopping its threads has a run that uses a freed object |
| Refcount.Shared.GetReference | sync/part5/refcount_example.c:38-50 | in a sound variant a reference is got iff the pointer is set; then the count was above zero and grows by one, otherwise it stays; no freed object is touched |
| Refcount.Shared.PutReference | sync/part5/refcount_example.c:52-57 | in a sound variant exactly this thread stops holding, the count falls by one, and the thread has to free iff that made it zero |
| Refcount.Shared.UserStep | sync/part5/kref_example.c:60-73 | a step of a user thread, of either variant: in a sound one it never faults, and if it frees, that is the first free, at count zero, with no holder left |
| Refcount.Shared.ExitStep | sync/part5/refcount_example.c:139-157 | a step of the exit function, of either variant: in a sound one it never faults, frees only once, at count zero and with no holder, and clears the pointer only after it has given up its own reference |
| Refcount.Shared.Run | sync/part5/refcount_example.c:75-157 | threads and exit path in any order: no fault, freed at most once |
| TokenPassing.StepRefines | sync/part4/kthread_sync.c:29-57 | every step of either version leaves the strict alternator alone or moves it once, and only the side whose turn it is moves it |
| TokenPassing.Alternates | sync/part4/kthread_sync_waitq.c:29-66 | after every run both versions are at some turn of the same alternator: one token, production 0 or 1 ahead of consumption |
| TokenPassing.TurnIs | sync/part4/kthread_sync.c:29-57 | the alternator's state follows from the number of moves |
| TokenPassing.SomeoneSteps | sync/part4/kthread_sync_waitq.c:32-65 | until one of the threads has exited one of them can step |
| TokenPassing.StopsExactly | sync/part4/kthread_sync.c:88-92 | once the producer has exited, kthread_stop(cthr) is sure to end the consumer, within five of its turns and whatever else happens, iff it reaches it before it has fallen asleep |
| TokenPassing.MayHangExactly | sync/part4/kthread_sync.c:88-92 | at any moment of any run the unload can still come to hang iff the consumer has not been told to stop yet or was told too late; so no state before the unload excludes it |
| TokenPassing.ShutdownMayHang | sync/part4/kthread_sync.c:88-92 | a run that ends so, in both versions |
| TokenPassing.Pair.ProdStep | sync/part4/kthread_sync.c:29-42 | a step of the producer, with semaphores or with flags, leaves the alternator alone or moves it once, in the producer's turn only; whenever it produces it is exactly one ahead |
| TokenPassing.Pair.ConsStep | sync/part4/kthread_sync_waitq.c:49-66 | a step of the consumer moves the alternator in the consumer's turn only; whenever it consumes it has caught up |
| TokenPassing.Pair.Run | sync/part4/kthread_sync.c:29-92 | any run of both threads and the module exit keeps production 0 or 1 ahead |
| LockOrder.OrderedNeverStuck | sync/part6/lockdep_annotations.c:25-71 | programs that take their locks in rising rank are never stuck, in any schedule |
| LockOrder.StepsAreBounded | sync/part6/lockdep_annotations.c:25-71 | every step that is not a wait brings the end nearer |
| LockOrder.LockdepNeverStuck | sync/part6/lockdep_annotations.c:73-95 | any number of threads with any number of iterations of this body are never stuck |
| LockOrder.IterationReleases | sync/part6/lockdep_annotations.c:79-92 | at the end of an iteration a thread owns no lock |
| LockOrder.Totals | sync/part6/lockdep_annotations.c:25-71 | when all are done res_b counts every iteration, and res_a 6 for each and at most once 2 more: only one test of res_a ever passes |
| LockOrder.TotalsAlone | sync/part6/lockdep_annotations.c:73-95 | the one thread that the module starts adds these 2 exactly once |
| LockOrder.IterationAlone | sync/part6/lockdep_annotations.c:25-71 | within one iteration: 1 to both counters under both locks, then 5 and then 2 to res_a, each with its lock given back |
| LockOrder.StuckExactly | debug-lkms/buggy-modules/locking/deadlock.c:24-66 | threads that each take the two locks in one order can get stuck iff both orders occur |
| LockOrder.BothOrdersGetStuck | debug-lkms/buggy-modules/locking/deadlock.c:30-58 | one step of each thread is enough |
| LockOrder.Machine.Advance | debug-lkms/buggy-modules/locking/deadlock.c:24-66 | a thread stands still only at a lock that is taken; among programs in rising order it leaves the locks of others alone and then owns exactly what its program holds there |
| LockOrder.Machine.Run | debug-lkms/buggy-modules/locking/deadlock.c:24-66 | any schedule, in place; rising orders are not stuck at its end |
| LockOrder.Lockdep.KthreadFn | sync/part6/lockdep_annotations.c:73-95 | the one thread the module starts: the conditional addition happens in the first iteration only |
| LockOrder.Lockdep.MightUse | sync/part6/lockdep_annotations.c:58-71 | two are added iff res_a is below 10; no lock is kept |
| Seqlock.AcceptedIsHalf | sync/part3/kthread_seq.c:39-50 | an accepted value is half the even number the reader began with unless the number went all the way round |
| Seqlock.AcceptedExactly | sync/part3/kthread_seq.c:39-50 | an accepted value is half the number it began with, on the 31 bits of such a half, iff a multiple of 2^31 increments was stored between its beginning and its read |
| Seqlock.LeavesExactly | sync/part3/kthread_seq.c:44-47 | a reader that has read leaves its loop with that value iff the number is the one it began with; otherwise it begins again with nothing |
| Seqlock.UndisturbedRead | sync/part3/kthread_seq.c:39-50 | if the number is even when a reader begins and is not advanced until it checks, it accepts the counter as it stands, after one round |
| Seqlock.WriterRound | sync/part3/kthread_seq.c:28-36 | from a free lock any writer gets through in six accesses: one increment, two advances, the lock free again |
| Seqlock.NeverDecreases | sync/part3/kthread_seq.c:39-50 | before the first wrap-around every accepted value is exactly half, and one reader's values never decrease |
| Seqlock.WrapDeceives | sync/part3/kthread_seq.c:44-47 | a reader that sleeps through exactly 2^32 advances accepts a wrong value |
| Seqlock.Reached | sync/part3/kthread_seq.c:28-51 | the counter is half the sequence number, and one more between store and advance, after every run with any number of writers |
| Seqlock.HistoryIsPassive | sync/part3/kthread_seq.c:28-51 | runs that differ only in the recorded times do the same |
| Seqlock.Lock.WriterStep | sync/part3/kthread_seq.c:30-35 | the counter changes only by one, only at an odd number and only by the owner; the number advances only by its owner and never together with the counter |
| Seqlock.Lock.ReaderStep | sync/part3/kthread_seq.c:44-47 | a reader accepts exactly if the number is the one it began with; what it accepts is, at an even number, the current counter and half that number unless the number went all the way round since; the values accepted by others stay |
| Seqlock.Lock.Run | sync/part3/kthread_seq.c:28-51 | all threads in any order |
| CrashDump.OffsetIs | notifiers/part5/panic_notifier.c:53-63 | while there is room the offset is the length so far, from then on it stands still |
| CrashDump.SizeIsRight | notifiers/part5/panic_notifier.c:150 | the reported size is the length of the dump iff no message begins inside the buffer and ends beyond it |
| CrashDump.LongMessageIsMisreported | notifiers/part5/panic_notifier.c:48-64 | one message of 5000 characters: 4095 are in the dump, 5000 are reported |
| CrashDump.PanicFits | notifiers/part5/panic_notifier.c:66-153 | with the field sizes of utsname and task the messages of a panic fit, and none is cut |
| CrashDump.PanicText | notifiers/part5/panic_notifier.c:70-132 | the text of a panic in full: every value behind its label, section by section |
| CrashDump.DumpIsPrefix | notifiers/part5/panic_notifier.c:48-64 | what is in the dump stays there, whatever is appended |
| CrashDump.FullStaysFull | notifiers/part5/panic_notifier.c:53-54 | once full, nothing changes it |
| CrashDump.Buffer.Append | notifiers/part5/panic_notifier.c:48-64 | in place: the buffer holds the first 4095 characters of all messages and then only NULs; the size passed on is never negative and nothing outside is written |
| CrashDump.Buffer.Vsnprintf | notifiers/part5/panic_notifier.c:57-59 | as much of the message as fits, a NUL after it, the rest untouched, the full length as result |
| CrashDump.Buffer.Reset | notifiers/part5/panic_notifier.c:174-176 | a buffer in any state becomes the empty dump |
| CrashDump.Buffer.PrintedText | notifiers/part5/panic_notifier.c:148 | %s prints exactly the dump |
| CrashDump.Buffer.PanicEventHandler | notifiers/part5/panic_notifier.c:155-199 | whatever was in the buffer, it then holds the dump of this panic's messages, without the task section if there is no task; with the field sizes there are that is every message in full, and the printed size is its length |
| FuncLatency.HistogramComplete | debug-lkms/ebpf-examples/src/func_latency.c:67-81 | every bucket holds the number of its latencies, the histogram adds up to the completed count, and the total is their sum |
| FuncLatency.CallMeasured | debug-lkms/ebpf-examples/src/func_latency.c:44-104 | a call that found room is measured as the time from its entry to its exit, whatever other threads do meanwhile, and counted once in histogram, count, total, minimum and maximum |
| FuncLatency.UnmatchedExit | debug-lkms/ebpf-examples/src/func_latency.c:58-62 | a second exit without an entry between changes nothing |
| FuncLatency.BucketExactly | debug-lkms/ebpf-examples/src/func_latency.c:64-70 | a latency is in its bucket iff its tens of microseconds fit 32 bits, or are at least 63 when cut to them |
| FuncLatency.BucketRepeats | debug-lkms/ebpf-examples/src/func_latency.c:64-70 | the cut to 32 bits: the bucket repeats every 2^32 times ten microseconds |
| FuncLatency.LongCallLooksShort | debug-lkms/ebpf-examples/src/func_latency.c:64-70 | one call of 42949672960000 ns is counted in bucket 0 |
| FuncLatency.MinimumAndMaximum | debug-lkms/ebpf-examples/src/func_latency.c:89-99 | the maximum is exact; the minimum iff no latency was 0 or the last one was |
| FuncLatency.MinimumExactly | debug-lkms/ebpf-examples/src/func_latency.c:92-93 | what the "0 is unset" rule remembers |
| FuncLatency.MinimumIsForgotten | debug-lkms/ebpf-examples/src/func_latency.c:92-93 | calls of 0 and 5 ns leave 5 as minimum |
| FuncLatency.AverageBetween | debug-lkms/ebpf-examples/src/func_latency.c:76-99 | min * count <= total <= max * count when no latency is 0 and nothing overflowed |
| FuncLatency.Tracker.TraceFuncEntry | debug-lkms/ebpf-examples/src/func_latency.c:44-52 | the entry time is stored for its thread if there is room; other threads keep theirs |
| FuncLatency.Tracker.TraceFuncExit | debug-lkms/ebpf-examples/src/func_latency.c:55-104 | with a stored entry the time since then is measured and all maps follow; otherwise nothing changes |
| LockContention.AttemptsAccounted | debug-lkms/ebpf-examples/src/lock_contention.c:44-95 | attempts are unlocks, open entries, replaced and lost ones together; the histogram adds up to the unlocks |
| LockContention.HoldMeasured | debug-lkms/ebpf-examples/src/lock_contention.c:44-95 | a lock that found room and the unlock of the same thread: the time between is measured, whatever other threads do meanwhile |
| LockContention.BucketIs | debug-lkms/ebpf-examples/src/lock_contention.c:74-81 | the decade of a hold time: below 1000 ns, below 10000 ns, and so on; the last from 10 ms |
| LockContention.Tracker.TraceMutexLockEntry | debug-lkms/ebpf-examples/src/lock_contention.c:44-58 | the attempt is counted and becomes the open one of its thread, unless the map is full of other threads, which keep theirs |
| LockContention.Tracker.TraceMutexUnlock | debug-lkms/ebpf-examples/src/lock_contention.c:62-95 | the time since the open attempt of the thread is measured and counted in one bucket; without one nothing changes |
| MemLeak.BalanceExactly | debug-lkms/ebpf-examples/src/memleak_tracker.c:44-83 | allocations minus frees is the size of the map iff as many frees were unknown as allocations were replaced or lost |
| MemLeak.TracksLive | debug-lkms/ebpf-examples/src/memleak_tracker.c:44-83 | on well-formed traces within capacity it is the number of live allocations, and the map is exactly those |
| MemLeak.Tracker.TraceKmallocRet | debug-lkms/ebpf-examples/src/memleak_tracker.c:44-62 | an allocation is counted and tracked, unless the map is full of others, which stay; a failed one changes nothing |
| MemLeak.Tracker.TraceKfree | debug-lkms/ebpf-examples/src/memleak_tracker.c:66-83 | a free is counted and its address no longer tracked; one that was not is an unknown free; all others stay |
| BpfMaps.Update | debug-lkms/ebpf-examples/src/func_latency.c:49 | the key gets the value if it is there or there is room below 10240 entries; every other key keeps its own |
| Slab.HandedOutClean | mm/p3_slub/safe_alloc.c:41-79 | whatever happened before, an object that may be handed out has no old data; its magic is NET_MAGIC iff it was never freed |
| Slab.OneHolder | mm/p3_slub/safe_alloc.c:41-79 | what is handed out is not handed out again before it has been freed |
| Slab.FreedMagicShows | mm/p3_slub/safe_alloc.c:41-79 | after one allocation and one free the object on offer carries 0x12345678 |
| Slab.FilledReadsBack | mm/p3_slub/safe_alloc.c:81-89 | every name ends within its field; after a fill it reads as the given name cut at eleven characters, padded with NULs, and id, address, magic and flags are as asked for |
| Slab.NetDevice.constructor | mm/p3_slub/safe_alloc.c:29-38 | the constructor's blank object |
| Slab.NetDevice.Clear | mm/p3_slub/safe_alloc.c:66-71 | the fields as net_device_free leaves them |
| Slab.NetDevice.Strncpy | mm/p3_slub/safe_alloc.c:86 | the string cut and padded, the bytes behind untouched |
| Slab.NetDevice.FillDeviceData | mm/p3_slub/safe_alloc.c:81-89 | every field but the last byte of the name is written |
| Slab.Cache.NetDeviceAlloc | mm/p3_slub/safe_alloc.c:41-50 | what is handed out is one of the free objects, and clean, and no longer free |
| Slab.Cache.NetDeviceFree | mm/p3_slub/safe_alloc.c:53-79 | the object is cleared, then back in the cache; NULL changes nothing |
| Slab.Cache.FillDeviceData | mm/p3_slub/safe_alloc.c:81-89 | only that object changes |

## Left out

- Logging, sleeps, thread and module registration, /proc, debugfs, sysfs, menus, loaders, scripts: no property of their own. Loop bounds of threads and `kthread_should_stop` are left open, which only adds runs.
- Page, kmalloc, vmalloc, DMA, CMA and NUMA demos, keyring, capability, credential and AppArmor programs, the other deliberately buggy modules, `arm64_pagewalk.c`, `x86_64_pagewalk.c`, `lockfree_list.c`, `lockless_queue.c`, `kthread_wwtest.c`, `kthread_cpurwsem.c`, the simple lock and counter demos: straight-line calls, or no correct protocol to prove.
- More than one updater of the book list: `Borrow_book` and `Return_book` look their book up before they take `books_lock`, and the module calls everything from one thread.
- The updater's own `rcu_read_lock` and `books_lock`: with one updater they keep nobody out, so they are no steps; the updater does not count as a reader of its own grace periods.
- Reordering of loads and stores outside `Barriers`: the other modules are sequentially consistent, and `rcu_assign_pointer`, `rcu_dereference` and the seqlock's barriers are taken to make them so.
- `Barriers`: loads that are speculated across iterations of the consumer loop; shared data wider than one store.
- Failure of `kthread_run` in an init function, and the clean-up it leads to.
- The padding bytes of the name and author fields of a book: they are strings of at most 64 characters here.
- BookStore.Store.SynchronizeRcu: readers leave while the updater waits, which is what the kernel waits for; whether readers ever leave is not modelled.
- BookStore.Store.IsBorrowed: the loop in place is proved with nothing else running; what it may answer under interleaving is `RcuListCalls.AnswerWasTrue`.
- RcuPointer.Module.UpdaterRound: one round without other threads in between; the interleavings are those of `RcuPointer.NeverFaults`.
- LostUpdate.Race.Run: the counter is unbounded; for the module's 2 * 1000 increments it stays far below the width of an int.
- Refcount.Shared.UserStep: the lost updates possible in `resource_id += thread_id` and `data += id` are modelled, but of the sum only what an undisturbed use adds is proved; saturation of counts is not reached.
- TokenPassing.Pair.ProdStep: signals, which could end `wait_event_interruptible` early; kernel threads ignore them.
- Seqlock.Lock.WriterStep: no memory reordering, see above.
- UserWalk.WalkTranslates: the kernel's page-table headers are not part of this repository; assumed is their documented x86 form: `pmd_leaf` looks at the size bit alone, `pud_leaf` at size and present bit or, in newer kernels, at the size bit alone (`Kernel` says which, and everything is proved for both), `pte_present` at the present and the PROT_NONE bit, the frame of an absent entry is stored inverted, and `p4d_bad` lets the NX bit pass, as it does with page-table isolation configured. Not modelled: five-level paging, protection keys and access rights, MAXPHYADDR below 52 and canonical addresses; page tables are not changed during the walk, and `pmd_page` and `pte_page` are never null.
- UserWalk.UserWalker.RaiseText: the direct map is one byte memory by physical address; the 20 characters printed from it are not modelled.
- UserWalk.UserWalker.VaddrWrite: `copy_from_user` and `kstrtoul` are parameters; `status_read` is not modelled.
- CrashDump.Buffer.PanicEventHandler: numbers arrive formatted; messages are shorter than 2^31 characters, so vsnprintf's result fits an int.
- FuncLatency.Tracker.TraceFuncExit: a handler runs as one step; on several CPUs the updates of minimum and maximum are not atomic.
- FuncLatency.HistogramComplete: up to 2^64 - 1 latencies, beyond which the counters wrap; likewise the totals of the two other trackers.
- MemLeak.Tracker.TraceKmallocRet: the recorded size is 0 in the source as well.
- Slab.Cache.NetDeviceAlloc: the cache hands out any free object, and does not write to free ones (true of a cache with a constructor); destruction of the cache.
- Seccomp.CheckedDecides: instructions of classic BPF other than the three used here; the kernel's own rewriting of a filter.
