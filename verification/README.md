# The buffer pool, verified

A buffer pool keeps pages of a file in a fixed set of memory frames and shares them between
threads. Its routines drop the one metadata mutex while they read or write the disk and take
it again afterwards, so what matters is what every interleaving of those sections keeps. This
project models the pool and proves, for every run:

* the pool behaves as a map from page ids to bytes; loads, evictions, flushes, pins, unpins
  and every failure are invisible in that map;
* a page that is clean is on disk, with any number of overlapping or failing flushes;
* no page is in two frames, no frame leaks, no internal consistency check ever fails, pins are
  conserved, no stale write lands on a reused id;
* no wake-up is lost: whoever waits un-notified still waits for something that has not happened;
* the pool never deadlocks, and left alone it comes to rest with every operation finished;
* "no frame available" is thrown exactly when every frame is pinned;
* every call is answered: a fetch with a guard that shows the page, a flush with the page on
  disk, a delete with the page gone, or each with an exception under a written-out condition.

Underneath, the bitmap allocator, the clock replacer, the page table, the page file and the
executor are proved against specifications of their own, and the manager is proved once more
as a class over those components: each call, run alone, is a run of the concurrent model from
the state before it to the state after it (`Sequential.RunsTo`).

## How the parts fit together

| file | what it holds |
|---|---|
| `Protocol.dfy` | the pool as a transition system: a step is one critical section, one chunk of disk I/O, or one action of a client on a guard; disk steps may succeed or fail |
| `ProtocolInvariant.dfy` | the invariant and the proof that every step of every thread keeps it |
| `ProtocolView.dfy`, `ProtocolTheorems.dfy` | the pool as a map, and transparency over all runs |
| `ProtocolSafety.dfy`, `ProtocolLiveness.dfy` | what holds in every reachable state; flush windows; deadlock freedom |
| `ProtocolWaiting.dfy`, `ProtocolTermination.dfy` | why a thread still waits; runs without further client actions end |
| `ProtocolAnswers.dfy`, `ProtocolDecisions.dfy` | what each call may answer, whatever the other threads do; when exactly each branch is taken |
| `ProtocolRules.dfy`, `ProtocolWitnesses.dfy` | when exactly a broken rule matters; reachable states in which it does |
| `Sequential.dfy`, `BufferManager.dfy` | undisturbed calls as runs of the protocol; the manager and its guards as classes |
| `Words.dfy`, `FrameAllocator.dfy` | 64-bit words bit by bit; the allocation bitmap as a set |
| `ReplacerContract.dfy`, `ClockReplacer.dfy` | what the manager needs of a replacer; the clock sweep |
| `PageStates.dfy`, `PageTable.dfy` | the five page states; the table with its free list |
| `DiskManager.dfy` | layout of the file; short, interrupted and failing transfers |
| `AsyncExecutor.dfy` | the task queue and its workers as a transition system |

A write of a page is modelled as a sequence of chunk copies, each taking the bytes the frame
holds at that moment, because other threads may change them while the mutex is free. Every
internal check of the code (page table transitions, frame metadata, pin counts, allocator and
replacer errors) is evaluated and raises the field `fault` of a state when it fails.

The protocol relies on these rules, which clients have to keep (`Protocol.ClientRules`).

* (a) An id is fetched or deleted only after the `NewPage` that made it has returned, and it is
  not handed out again while a fetch or delete of its previous life is still under way.
  `NewPage` reserves the id as nonresident and may release the mutex before it publishes it.
* (b) A client that changes the bytes behind a guard calls `MarkDirty` after the change and
  before it drops the guard.
* (c) A flush finds room for one more pin: `FlushPage` increments the pin count without a check
  (src/buffer_manager.cc:381), unlike `FetchPage`. And the dirty epoch of a frame does not pass
  the end of its range while a flush of the frame is in flight.

`ProtocolRules.dfy` says for each rule when exactly breaking it matters: for (a), when another
thread's Fetch or Delete gets hold of the id of a NewPage that is emptying a frame or waiting for
one, or when an id is given out while such an operation of its previous life is under way; for (b), when the guard
dropped had the only unmarked change on a clean frame; for (c), when a flush begins at the pin
limit, however it ends, and when a page is marked a multiple of 2 to the 64 times inside the
window of a flush. `ProtocolWitnesses.dfy` exhibits reachable states for every rule.

The replacer may be any that meets `ReplacerContract.dfy`; `ClockReplacer.dfy` proves that the
clock does. The repository's README.md speaks of FIFO and LRU replacement; the code implements
CLOCK, and the model follows the code.

In the classes, an exception becomes a returned outcome. What one system call transfers is
given by a script, any list of short transfers, interruptions and errors; when it is used up,
calls move all they can, so the number of interruptions is finite. A transfer fails exactly when
the script makes one of its calls fail, or when an offset does not fit its type. A disk is
`Sound` when the script holds only short transfers and interruptions and all offsets fit; on a
sound disk no transfer fails.

Check the project with `dafny verify dfyconfig.toml`.

## Model

| member | source | states |
|---|---|---|
| ProtocolInvariant.InitInv | src/buffer_manager.cc:211-226 | a freshly constructed manager satisfies the invariant |
| ProtocolInvariant.StepKeeps | src/buffer_manager.cc:230-753 | every step of every thread, successful or failing, keeps the invariant: agreement of table, metadata, allocator and replacer, ownership of transient frames, pin counts, clean means on disk |
| ProtocolInvariant.LocalStepKeeps | src/buffer_manager.cc:230-753 | a step that touches one thread, one frame and two pages keeps the invariant everywhere if it keeps it there |
| ProtocolInvariant.PinnersAfter | src/buffer_manager.cc:381-392 | the number of flushes and loads that pin a frame changes by one exactly when a thread enters or leaves such a window |
| ProtocolInvariant.PublishKeeps | src/buffer_manager.cc:236-255 | publishing a new page in a free frame keeps the invariant |
| ProtocolInvariant.EvictStartKeeps | src/buffer_manager.cc:533-557 | starting an eviction with the mutex held keeps the invariant |
| ProtocolInvariant.EvictChunkKeeps | src/storage/disk_manager.cc:127-153 | a chunk of an eviction write, copying the frame's present bytes, keeps the invariant |
| ProtocolInvariant.EvictFailKeeps | src/buffer_manager.cc:563-568 | a failed eviction write, with the victim restored, keeps the invariant |
| ProtocolInvariant.EvictReleaseKeeps | src/buffer_manager.cc:643-656 | giving the emptied frame back because the page to fetch has changed state keeps the invariant (the fetch then starts over: `ProtocolDecisions.EvictionDecides`) |
| ProtocolInvariant.FlushDoneKeeps | src/buffer_manager.cc:398-411 | the end of a flush keeps the invariant, other flushes of the same page in flight included |
| ProtocolInvariant.FlushFailKeeps | src/buffer_manager.cc:391-396 | a flush that fails part-way keeps the invariant |
| ProtocolInvariant.LoadDoneKeeps | src/buffer_manager.cc:323-336 | the end of a load keeps the invariant |
| ProtocolInvariant.LoadFailKeeps | src/buffer_manager.cc:312-321 | a failed load keeps the invariant |
| ProtocolInvariant.DeleteResidentKeeps | src/buffer_manager.cc:469-490 | deleting a resident page keeps the invariant |
| ProtocolTheorems.StepRefines | src/buffer_manager.cc:230-753 | each step does to the map of pages exactly its operation: only guard writes, the publication of a new page and deletions do anything |
| ProtocolTheorems.RunRefines | src/buffer_manager.cc:230-753 | transparency: over every legal run of any number of threads the pool is the map that the client-visible operations alone build up (what each call answers is stated by `ProtocolAnswers.StepAnswers`) |
| ProtocolTheorems.ReachableInv | src/buffer_manager.cc:211-753 | the invariant holds in every reachable state |
| ProtocolSafety.NoInternalError | src/buffer_manager.cc:377-379 | no internal consistency error is ever thrown, in any run |
| ProtocolSafety.OnePageOneFrame | src/buffer_manager.cc:295-332 | concurrent fetches never put one page in two frames |
| ProtocolSafety.FourWayAgreement | src/buffer_manager.cc:240-252 | allocator, metadata, replacer and page table agree about every frame whenever the mutex is free |
| ProtocolSafety.PinConservation | src/buffer_manager.cc:694-740 | a pin count is the number of live guards, flushes in flight and loads in flight on the frame |
| ProtocolSafety.GuardReadsTheMap | src/buffer_manager.cc:689-692 | the page of a live guard stays resident in the guard's frame, and the guard shows its contents |
| ProtocolSafety.FetchHitReturnsTheMap | src/buffer_manager.cc:276-280 | fetching a resident page returns a guard on the page's contents |
| ProtocolSafety.LoadReturnsTheMap | src/buffer_manager.cc:308-336 | fetching a page from disk returns a guard on the page's contents |
| ProtocolSafety.CleanMeansOnDisk | src/buffer_manager.cc:372-411 | a resident frame is dirty, or has an unmarked change, or equals its page on disk |
| ProtocolSafety.FlushPrefixOnDisk | src/buffer_manager.cc:384-407 | for every flush in flight: as long as its captured epoch stands and nothing is unmarked, what it has copied is on disk |
| ProtocolSafety.NoFrameIsExact | src/buffer_manager.cc:518-531 | "no frame available" is thrown exactly when every frame is resident and pinned |
| ProtocolSafety.IoExclusion | src/buffer_manager.cc:281-284 | loads and eviction writes of a page overlap no other I/O on it, flushes only flushes from the same frame |
| ProtocolSafety.NoStaleIo | src/buffer_manager.cc:469-497 | no I/O of a page is in flight when it is deleted or while its id is unused or reserved |
| ProtocolSafety.NoLostWakeUp | src/buffer_manager.cc:524-528 | every thread that waits without a notification on its way looks for a frame while none is free or evictable and some frame is in transit, or its page is loading or evicting; and a transient frame has exactly one owner, which is not waiting |
| ProtocolSafety.TransientHasSoleOwner | src/buffer_manager.cc:660-665 | a loading or evicting frame belongs to exactly one thread, which is inside its I/O window |
| ProtocolSafety.LegalExtends | src/buffer_manager.cc:230-753 | a run may be prolonged by any enabled step that keeps the rules |
| ProtocolLiveness.FlushWindow | src/buffer_manager.cc:381-411 | between its unlock and relock a flush keeps its page resident and pinned in its frame, and the dirty epoch counts the MarkDirty calls of the window exactly, so an equal epoch means there was none |
| ProtocolLiveness.StepWindow | src/buffer_manager.cc:381-411 | for one step: the frame of a flush in flight keeps its page, and its epoch moves exactly if the step marks it dirty |
| ProtocolLiveness.NoDeadlock | src/buffer_manager.cc:524-528 | while an operation is unfinished, some thread can take a step that is neither a wait nor a spurious wake-up nor a client action, for any number of threads |
| ProtocolWaiting.StepKeepsReasons | src/buffer_manager.cc:254-740 | every step leaves each waiter its reason to wait, or notifies it: no frame becomes free or evictable, and no page leaves its transient state, in silence |
| ProtocolTermination.RunsEnd | src/buffer_manager.cc:230-498 | without client actions and spurious wake-ups every run is at most as long as what was left to do, retries after lost evictions and repeated waits included |
| ProtocolTermination.LeftAlone | src/buffer_manager.cc:230-498 | from every reachable state the operations in flight end, and where nothing can be brought forward all of them have finished (with their answers: `ProtocolAnswers.LeftAloneAnswers`) |
| ProtocolAnswers.FetchAnswers | src/buffer_manager.cc:266-340 | after any step of any thread, a fetch under way is still a fetch of the same page, or it has returned a new guard whose bytes are the page's contents in the map, or it has thrown because the id is out of range, the page does not exist, it is pinned to the limit, all frames are pinned, or the disk has failed |
| ProtocolAnswers.NewStartAnswers | src/buffer_manager.cc:230-233 | a NewPage without an id takes an unused one, or throws exactly when there is none |
| ProtocolAnswers.NewAnswers | src/buffer_manager.cc:235-263 | a NewPage with an id is still under way with that id, or it has returned a new guard on a page of zeros under an id that no page had, or it has thrown, because all frames are pinned or the disk has failed, and the id is unused again |
| ProtocolAnswers.FlushAnswers | src/buffer_manager.cc:351-415 | a flush under way goes on, or it has thrown for a written-out reason, or it has returned: without a write only if the page is on disk or somebody has an unmarked change, and after a write with the page clean and, but for unmarked changes, on disk, if nobody has marked it meanwhile |
| ProtocolAnswers.FlushMeansOnDisk | src/buffer_manager.cc:381-411 | over any run between the two critical sections of a flush: if nobody marks the frame in between and nothing is unmarked in the end, the page is on disk and clean when the flush returns |
| ProtocolAnswers.DeleteAnswers | src/buffer_manager.cc:454-498 | a delete under way goes on, or the page and nothing else has gone from the map, or it has thrown because the id is out of range or the page is in memory and pinned |
| ProtocolAnswers.StepAnswers | src/buffer_manager.cc:230-498 | whatever step any thread takes, a call under way is still the same call or has been answered in one of these ways |
| ProtocolAnswers.LeftAloneAnswers | src/buffer_manager.cc:230-498 | left alone, every call in flight gets its answer: where nothing can be brought forward any more, each has been answered in the course of the run |
| ProtocolDecisions.FetchReturnsAtOnce | src/buffer_manager.cc:270-280 | a fetch throws before it looks for a frame exactly for an id out of range, an unused page, or a page in memory that is pinned to the limit |
| ProtocolDecisions.FetchDecides | src/buffer_manager.cc:276-293 | it pins a page exactly if it is in memory and not pinned to the limit, and looks for a frame exactly for a nonresident one |
| ProtocolDecisions.FlushReturnsAtOnce | src/buffer_manager.cc:355-375 | a flush ends without a write exactly for an id out of range or a page that is unused, nonresident, or in memory and clean; never for one that is evicting |
| ProtocolDecisions.FlushDecides | src/buffer_manager.cc:369-387 | it writes exactly a page that is in memory and dirty |
| ProtocolDecisions.DeleteReturnsAtOnce | src/buffer_manager.cc:458-479 | a delete ends without a deletion exactly for an id out of range or a page that is unused, or in memory and pinned |
| ProtocolDecisions.DeleteDecides | src/buffer_manager.cc:469-495 | it deletes exactly pages that are nonresident, or in memory and not pinned |
| ProtocolDecisions.FetchOneBranch | src/buffer_manager.cc:269-339 | a fetch that holds the mutex has exactly one way to go: end at once, wait, pin, or look for a frame; it waits exactly while its page is loading or evicting |
| ProtocolDecisions.FlushOneBranch | src/buffer_manager.cc:354-414 | a flush has exactly one way to go: end at once, wait, or write; it waits exactly while its page is loading or evicting |
| ProtocolDecisions.DeleteOneBranch | src/buffer_manager.cc:457-497 | a delete has exactly one way to go: end at once, wait, or delete; it waits exactly while its page is loading or evicting |
| ProtocolDecisions.AcquireDecides | src/buffer_manager.cc:517-537 | the search for a frame over the metadata alone: a free frame is taken, without one an unpinned resident frame is evicted, without either the thread waits if some frame is in transit, and throws exactly if all are resident and pinned; exactly one of the four applies |
| ProtocolDecisions.EvictionDecides | src/buffer_manager.cc:643-656 | with its victim gone a fetch loads into the frame exactly if its page is still nonresident; otherwise the frame is free again and the fetch starts over |
| ProtocolRules.TouchOfReservedIdFaultsExactly | src/buffer_manager.cc:233-249 | while a NewPage is away emptying a frame, let another thread begin any operation and take its first step: NewPage then fails on its own page table entry exactly if that was a Fetch or Delete that got hold of the reserved id |
| ProtocolRules.TouchOfWaitingIdFaultsExactly | src/buffer_manager.cc:524-528 | the same for a NewPage that waits for a frame while it holds its id |
| ProtocolRules.ReuseIsAnEarlyTouch | src/buffer_manager.cc:230-236 | giving out an id while a Fetch or Delete of its previous life is under way leads to the same states as an early Fetch or Delete of the new id |
| ProtocolRules.UnmarkedDropLosesChange | src/buffer_manager.cc:742-753 | dropping a guard leaves a clean frame that is not on disk exactly if no other guard on it has an unmarked change |
| ProtocolRules.FlushPinsExactly | src/buffer_manager.cc:381-396 | the unchecked increment of a flush ends in a pin count underflow exactly at the limit, whether the write fails or succeeds |
| ProtocolRules.EpochComparesExactly | src/buffer_manager.cc:400-407 | a flush overlooks the marks made in its window, and leaves the page clean but not on disk, exactly if their number is a multiple of 2 to the 64 |
| ProtocolWitnesses.TouchHappens | src/buffer_manager.cc:233-249 | a state in which a Fetch and a Delete can get hold of a reserved id is reachable |
| ProtocolWitnesses.ReuseHappens | src/buffer_manager.cc:454-498 | a state in which an id is about to be reused under a Delete in flight is reachable |
| ProtocolWitnesses.PinsReach | src/buffer_manager.cc:694-709 | repeated fetches take the pin count to every value up to its limit |
| ProtocolWitnesses.FullPinsHappen | src/buffer_manager.cc:381-382 | a state in which a flush begins at the pin limit is reachable |
| ProtocolWitnesses.ChangesDuringFlushHappen | src/buffer_manager.cc:387-398 | a state in which a flush has written the page and a client has changed it since is reachable |
| ProtocolWitnesses.UnmarkedChangesHappen | src/buffer_manager.cc:742-753 | a state with an unmarked change on a clean frame is reachable |
| Sequential.Quiet | src/buffer_manager.cc:660-665 | with one thread outside an I/O window nothing is in transit, reserved or waiting |
| Sequential.NewTakesFrame | src/buffer_manager.cc:230-255 | an undisturbed NewPage, in a free frame or by eviction, is a run that adds a page of zeros and writes the evicted page back |
| Sequential.NewEvictionFails | src/buffer_manager.cc:256-263 | an undisturbed NewPage whose eviction fails is a run that ends where it began, but for a prefix of the victim's slot |
| Sequential.FetchLoads | src/buffer_manager.cc:287-336 | an undisturbed fetch of a nonresident page is a run that leaves the map as it is and returns a guard on the page's contents |
| Sequential.FetchLoadFails | src/buffer_manager.cc:312-321 | an undisturbed fetch whose load fails leaves the map as it is and the frame free |
| Sequential.FetchEvictionFails | src/buffer_manager.cc:636-641 | an undisturbed fetch whose eviction fails ends where it began, but for a prefix of the victim's slot |
| Sequential.FetchHits | src/buffer_manager.cc:276-280 | an undisturbed fetch of a resident page only adds a pin and a guard |
| Sequential.FlushCleans | src/buffer_manager.cc:369-412 | an undisturbed flush of a dirty page writes its bytes and clears the dirty flag; pins and replacer end as they were |
| Sequential.FlushFails | src/buffer_manager.cc:391-396 | an undisturbed flush that fails changes a prefix of the slot and nothing else |
| Sequential.DeletesResident | src/buffer_manager.cc:469-490 | an undisturbed delete of an unpinned resident page removes exactly this page from the map |
| Sequential.DeletesNonResident | src/buffer_manager.cc:492-495 | an undisturbed delete of a nonresident page removes exactly this page from the map |
| BufferManager.BufferManager.constructor | src/buffer_manager.cc:211-226 | a new manager is an initial state of the protocol with an empty map |
| BufferManager.BufferManager.NewPage | src/buffer_manager.cc:230-264 | a run of the protocol; a new page of zeros, under the id given back last or else the first never handed out, with its frame's exact state, or an exception after which everything but the file is as before: map, ids, pins, and the victim with its dirty flag and epoch. Ids are exhausted and frames pinned exactly as the name says; a failed write means that the disk failed, and on a sound disk NewPage succeeds unless ids or frames are exhausted. The frame was free or is the one CLOCK chooses, and has its reference bit |
| BufferManager.BufferManager.FetchPage | src/buffer_manager.cc:266-340 | a run of the protocol; never changes the map; the guard shows the page; the exact state afterwards, for a page in memory one more pin and no access to the file; the frame has its reference bit and nothing else in the replacer has changed, but for what CLOCK does to choose a victim; each refusal under its exact condition, with guards and pins as before; a failed write or read means that the disk failed, and on a sound disk the fetch succeeds exactly for a page that exists, is not pinned to the limit, and is in memory or can get a frame |
| BufferManager.BufferManager.AcquireFrame | src/buffer_manager.cc:512-578 | a free frame, or that of the victim that CLOCK determines, after its page has been written; it fails only if all frames are pinned or the disk failed; with nothing in transit it never has to wait |
| BufferManager.BufferManager.EvictFrame | src/buffer_manager.cc:533-576 | the victim's page is on disk and unmapped; or the disk failed and the frame is as before |
| BufferManager.BufferManager.RestoreEvictedFrame | src/buffer_manager.cc:667-687 | an evicting page is resident again; the frame is evictable with the flag and epoch given; a page in another state keeps its entry |
| BufferManager.BufferManager.PinResidentFrame | src/buffer_manager.cc:694-709 | one more pin, not evictable and the reference bit set, no other frame touched; or refused exactly at the limit |
| BufferManager.BufferManager.UnpinFrame | src/buffer_manager.cc:711-727 | one pin less, evictable exactly when it was the last, the reference bit as before; its checks cannot fail |
| BufferManager.BufferManager.FlushPage | src/buffer_manager.cc:351-415 | a run of the protocol; afterwards the page is not dirty and, unless changed without a mark, on disk; map, guards, pins, replacer and all other pages and slots are as before, and a page that is not dirty is not written; it throws exactly for ids without a page and when the disk failed |
| BufferManager.BufferManager.FlushAllPages | src/buffer_manager.cc:421-440 | a run of the protocol; it fails only if the disk failed; otherwise, and always on a sound disk, no page is dirty and the file holds the whole map, but for unmarked changes; slots of pages that were not dirty are as before |
| BufferManager.BufferManager.DeletePage | src/buffer_manager.cc:454-498 | a run of the protocol; removes exactly this page and puts its id on top of the free list; refused exactly while a guard on it lives; unused ids are accepted silently |
| BufferManager.BufferManager.DropPageGuard | src/buffer_manager.cc:729-740 | one pin and one guard less; none of its checks can fail |
| BufferManager.BufferManager.MarkDirty | src/buffer_manager.cc:742-753 | the page is dirty, its epoch has moved on and wraps at its limit, the guard has no unmarked change, the map is as before |
| BufferManager.PageGuard.Move | src/buffer_manager.cc:133-137 | the pin changes hands; the other guard is empty |
| BufferManager.PageGuard.MoveFrom | src/buffer_manager.cc:139-156 | the old pin is given up, the other's taken over; assigning a guard to itself does nothing |
| BufferManager.PageGuard.Drop | src/buffer_manager.cc:194-209 | never throws; gives up one pin the first time and does nothing after that |
| BufferManager.PageGuard.MarkDirty | src/buffer_manager.cc:186-192 | marks the guard's page, and throws exactly for an empty guard |
| BufferManager.PageGuard.Write | src/buffer_manager.cc:170-176 | bytes written through a live guard are the page's contents in the map |
| BufferManager.PinnedMeansGuarded | src/buffer_manager.cc:477-479 | at rest a resident page is pinned exactly while a guard on it lives |
| BufferManager.AllPinnedMeansAllGuarded | src/buffer_manager.cc:524-531 | at rest all frames are pinned exactly when there is a live guard on each of them |
| BufferManager.CleanIsOnDisk | src/buffer_manager.cc:373-375 | at rest a page that is not dirty and has no unmarked change is on disk |
| FrameAllocator.FrameAllocator.AllocateFrame | src/page/frame_allocator.cc:29-63 | none exactly when all frames are taken; otherwise the lowest free frame of the first word that is not full, in cyclic order from the hint, and only its bit changes; the next search starts in the same word while it has a free frame, and in the next word, cyclically, otherwise; the final return is dead |
| FrameAllocator.FrameAllocator.FreeFrame | src/page/frame_allocator.cc:65-73 | removes exactly this frame from the set, and the next search starts in its word; each error under its exact condition |
| FrameAllocator.FrameAllocator.IsAllocated | src/page/frame_allocator.cc:85-88 | tells membership in the set, and an id out of range exactly |
| FrameAllocator.FrameAllocator.constructor | src/page/frame_allocator.cc:14-27 | the empty set, with the bits beyond the last frame set |
| FrameAllocator.MaskedTail | src/page/frame_allocator.cc:125-137 | masking the tail of the last word sets exactly the bits that belong to no frame |
| FrameAllocator.Taken | src/page/frame_allocator.cc:36-59 | word and lowest zero bit name a frame that was free, and setting the bit adds it to the set |
| FrameAllocator.FirstFreeUnique | src/page/frame_allocator.cc:36-59 | the specification of the search leaves no choice |
| FrameAllocator.FirstFreeInSets | src/page/frame_allocator.cc:36-59 | no free frame of the chosen frame's word is lower, and no word with a free frame comes earlier from the hint on, upwards and around the end |
| FrameAllocator.FreeUndoesAllocate | src/page/frame_allocator.cc:65-73 | freeing a frame undoes its allocation word for word |
| FrameAllocator.SetFrameAdds | src/page/frame_allocator.cc:50-51 | setting a bit adds one frame to the set that the bitmap stands for |
| FrameAllocator.ClearFrameRemoves | src/page/frame_allocator.cc:68-70 | clearing a bit removes one frame from the set |
| Words.LowestFree | src/page/frame_allocator.cc:44-45 | the trailing zeros of the complement give the lowest clear bit of a word that is not full |
| Words.FullWord | src/page/frame_allocator.cc:10-10 | a word is full exactly when all its bits are set |
| Words.TailBits | src/page/frame_allocator.cc:132-136 | the tail mask sets exactly the bits from the valid count on |
| ClockReplacer.ClockReplacer.Victim | src/replacement/clock_replacer.cc:50-75 | the two-pass sweep does what the specification says and always finds a victim when there is one |
| ClockReplacer.ClockReplacer.RecordAccess | src/replacement/clock_replacer.cc:20-26 | the frame is known and referenced, its evictable flag as before, all other entries and the hand unchanged |
| ClockReplacer.ClockReplacer.SetEvictable | src/replacement/clock_replacer.cc:28-48 | sets the flag, leaves the reference bit and all other entries alone, and keeps the count equal to the number of evictable frames; throws exactly for unknown frames and ids out of range |
| ClockReplacer.ClockReplacer.Remove | src/replacement/clock_replacer.cc:77-91 | the frame is forgotten, the count stays right |
| ClockReplacer.VictimUnique | src/replacement/clock_replacer.cc:50-75 | victim, reference bits and hand are determined by the specification |
| ClockReplacer.VictimMeetsContract | src/replacement/clock_replacer.cc:50-75 | no victim exactly when nothing is evictable; otherwise an evictable frame, which is removed |
| ClockReplacer.OperationsMeetContract | src/replacement/clock_replacer.cc:20-48 | the other operations act on the tracked frames as the manager relies on |
| ClockReplacer.SecondChance | src/replacement/clock_replacer.cc:20-75 | after an access to a frame, and any accesses, flag changes and removals of others, the next victim is that frame exactly if it is evictable, every evictable frame is referenced, and it is the first of them in clock order |
| ClockReplacer.ReferenceStays | src/replacement/clock_replacer.cc:20-48 | in any run only Victim takes the reference bit from a frame that stays |
| ClockReplacer.ClockOrder | src/replacement/clock_replacer.cc:107-113 | the hand moves upwards by one, modulo the number of frames, and the distance of a frame is the number of such moves |
| ClockReplacer.NoStarvation | src/replacement/clock_replacer.cc:50-75 | a frame that stays evictable and unaccessed is passed over by fewer than 2n victim calls, whatever happens to other frames |
| PageTable.PageTable.AllocatePageId | src/page/page_table.cc:20-41 | hands out an unused id: the last element of the free list if there is one, and else the first id never handed out; fails exactly when all are allocated |
| PageTable.PageTable.FreePageId | src/page/page_table.cc:43-57 | the id is unused and appended to the free list, nothing else changes; refused exactly for unused and memory-managed pages |
| PageTable.PageTable.FrameForPage | src/page/page_table.cc:71-79 | a frame exactly while the page is loading, resident or evicting |
| PageTable.PageTable.SetLoading | src/page/page_table.cc:81-94 | the transition succeeds exactly from nonresident |
| PageTable.PageTable.SetResident | src/page/page_table.cc:96-117 | the transition succeeds exactly from nonresident, or from loading into the same frame |
| PageTable.PageTable.SetNonResident | src/page/page_table.cc:119-128 | the transition succeeds from every used state and forgets the frame |
| PageTable.PageTable.SetEvicting | src/page/page_table.cc:130-142 | the transition succeeds exactly from resident and keeps the frame |
| PageTable.AfterKeeps | src/page/page_table.cc:20-142 | every operation keeps the table valid and changes the set of allocated ids only as its name says |
| PageTable.Conservation | src/page/page_table.cc:20-57 | allocated ids and free list together are the ids ever handed out |
| PageTable.FreeThenAllocate | src/page/page_table.cc:20-57 | the id freed last is the next one handed out, and then free list and counter are as before |
| PageTable.AllocateThenFree | src/page/page_table.cc:20-57 | an id just handed out and given back is the next one again; only a fresh id leaves a trace, on the free list |
| PageTable.FreshIdsInOrder | src/page/page_table.cc:27-33 | with an empty free list the next id is the number of ids ever handed out |
| PageTable.HandedOutBelowNext | src/page/page_table.cc:20-41 | over any run the ids ever handed out are exactly those below the counter |
| PageTable.ExhaustedIsExact | src/page/page_table.cc:20-33 | there is no next id exactly when all ids are allocated |
| PageTable.LiveIdStaysOut | src/page/page_table.cc:20-57 | over any run, a live id is not handed out again before it is freed |
| DiskManager.ChecksAreExact | src/storage/disk_manager.cc:52-66 | the checked operations report an overflow exactly when the 64-bit result would overflow |
| DiskManager.SlotsFit | src/storage/disk_manager.cc:224-251 | once the options are accepted, the slot of page p starts at header size + p * page size, is free of overflow, behind the header page and inside the expected file |
| DiskManager.AcceptedIsExact | src/storage/disk_manager.cc:233-251 | the layout options are accepted exactly if the page count is positive, the header takes whole pages and holds its record, and the file size does not overflow; then the size is header size + page count * page size |
| DiskManager.SlotsDisjoint | src/storage/disk_manager.cc:224-231 | slots of different pages do not overlap |
| DiskManager.WriteIsConfined | src/storage/disk_manager.cc:127-153 | a write that got as far as some byte changes this prefix of its own slot, no other slot and not the header |
| DiskManager.RoundTrip | src/storage/disk_manager.cc:183-202 | after a complete write the slot holds the page |
| DiskManager.WriteThenRead | src/storage/disk_manager.cc:183-202 | on a sound disk, under any short transfers and interruptions, writing a page and reading it back succeeds and returns the page, with all other slots as before |
| DiskManager.HarmlessGoesWell | src/storage/disk_manager.cc:111-142 | with only short transfers and interruptions ahead nothing goes wrong, and what is left of the script is as harmless |
| DiskManager.BeyondTheEnd | src/storage/disk_manager.cc:119-121 | a slot beyond the end of the file reads as zeros |
| DiskManager.DiskManager.WriteFully | src/storage/disk_manager.cc:127-153 | under any script exactly a prefix is written, all of it on success; it fails exactly when one of its calls failed or wrote nothing, or at an offset beyond the limit |
| DiskManager.DiskManager.ReadAtMost | src/storage/disk_manager.cc:101-125 | under any script the buffer receives exactly a prefix, up to the end of the file on success; it fails exactly when one of its calls failed, or at an offset beyond the limit |
| DiskManager.DiskManager.ReadPage | src/storage/disk_manager.cc:183-194 | byte i of the buffer is byte header size + p * page size + i of the file, or zero beyond its end; after an error the buffer holds a prefix of the slot and zeros; an I/O error exactly when a call failed |
| DiskManager.DiskManager.WritePage | src/storage/disk_manager.cc:196-202 | exactly the bytes from header size + p * page size on have changed, to those of the page, or after an error a prefix of them; other slots and the header are untouched; an I/O error exactly when a call failed or wrote nothing |
| AsyncExecutor.StepKeeps | src/buffer_manager.cc:61-105 | every step of submitters, workers and destructor keeps the executor's invariant |
| AsyncExecutor.Conservation | src/buffer_manager.cc:61-105 | an accepted task is queued, or running on one worker, or has run once, and only one of these |
| AsyncExecutor.StartsInOrder | src/buffer_manager.cc:78-100 | tasks start in the order of their submission |
| AsyncExecutor.AcceptedAreSubmitted | src/buffer_manager.cc:61-84 | until the stop every submission of a new task is accepted; over any run the accepted tasks are the submitted ones, in order |
| AsyncExecutor.AcceptedTasksRun | src/buffer_manager.cc:86-105 | left to itself the executor takes a bounded number of steps, and when none is left every accepted task has run exactly once, with or without a stop |
| AsyncExecutor.Drain | src/buffer_manager.cc:39-52 | when all workers have returned, every accepted task has run exactly once |
| AsyncExecutor.NothingAcceptedAfterStop | src/buffer_manager.cc:74-76 | nothing is accepted once the executor is stopping |
| AsyncExecutor.NeverStuck | src/buffer_manager.cc:86-105 | while there is a queued task, or a worker to bring home, the executor has a step of its own to take: no notification is lost |
| AsyncExecutor.ShutdownEnds | src/buffer_manager.cc:39-52 | after the stop every run is finite, with an explicit bound, and can only end with all workers home |

## Left out

* System calls, open flags, direct I/O, page alignment, `Sync` and durability across crashes:
  the file is a sequence of bytes with short transfers and errors.
* Header contents and their validation on reopening (src/storage/disk_manager.cc:322-360): field
  comparisons; the model shows only that page I/O never touches the header.
* Futures and packaged tasks: to the executor a task is an opaque identity that runs and ends; that
  the operations of the pool do end is `ProtocolTermination.LeftAlone`.
* A guarantee of `FlushAllPages` under concurrency: its snapshot skips evicting frames, and a
  page deleted meanwhile makes it throw. Only the undisturbed call is modelled.
* Fairness: a single waiting thread may be overtaken for ever; what is proved is that somebody
  can always go on.
* `NeverVictimReplacer` and other replacers that do not meet `ReplacerContract.dfy`.
* Option checks of the constructors and the simple getters: the constructors of the model
  require accepted options instead of throwing.
* The benchmarks, including an older copy of the manager that lacks the state test after an
  eviction for a fetch.
- BufferManager.BufferManager.FetchPage: a single thread finds no page in transit, so the waits and the state tests of `AcquireFrameForFetchLocked` after an eviction are dead there; the protocol has them as steps of their own (`Protocol.ApplyEvictRelease`, `WaitForPage`, `WaitForFrame`).
- BufferManager.BufferManager.FlushPage: requires room for one more pin, because the code increments the count without a check.
- ProtocolLiveness.NoDeadlock: assumes pin counts below their limit, for the same unchecked increment.
- ProtocolTermination.LeftAlone: assumes the same where it says that all operations have finished.
- ProtocolAnswers.LeftAloneAnswers: assumes the same.
- ProtocolAnswers.FetchAnswers: relies on rule (a), under which no fetch holds the id of a NewPage that has not returned; `ProtocolRules.TouchOfReservedIdFaultsExactly` says what happens otherwise.
- DiskManager.DiskManager.WritePage: a file whose size was not checked against `off_t` can fail with an offset too large; that outcome is modelled, and excluded when the expected size fits.
- DiskManager.DiskManager.ReadAtMost: the number of consecutive interruptions is finite, as a script is.
- FrameAllocator.FrameAllocator.constructor: the upper limit on the frame count given by the 32-bit frame id is left out; ids are natural numbers.
