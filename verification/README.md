# Verified model of the Roc terminal host

This project models the parts of the terminal host that are hardest to get right by
reading, and proves what they promise. All statements are for every heap, every run,
every interleaving or every text, as the case may be.

## What is modelled

**Reference counting** (`src/roc_platform_abi.rs`). `RocGraph` is the heap as a graph: one cell
per allocation with its kind, its refcount word and the values stored in it. A count of zero is
static data. `Accounted` says that every counted cell's word equals the references held by
outside owners and by other cells; cells whose teardown is under way are "zombies", whose contents
have moved to the releasing owner. `RocHeaps.RocHeap` performs the generated `incref`/`decref` helpers in
place, and `RocHeapReachability` says what any release that keeps the books must have done: it freed
exactly what the remaining owners cannot reach. `ConcurrentRoc` splits the same operations into
atomic loads, `fetch_add`, `fetch_sub` and frees, for any number of threads over the whole graph, and
`ConcurrentTeardown` says what they leave behind.

**Bytes and layouts** (same file). `RawMemory` is byte-addressed memory with the global
allocator's blocks: reading or freeing anything but a live block with its own layout does not
verify. On it stand `roc_alloc`/`roc_dealloc`/`roc_realloc` with their hidden size word
(`DefaultAllocators`), the refcount header (`RocLayout`), strings with their inline form, their
tag bit and their slices (`RocStrs`), and lists and erased callables (`RocLists`). `Utf8Text` has the
encoding that strings must be in, and the check for it.

**The TCP protocol and the main loop** (`src/lib.rs`). `TcpProtocol` is a transition system: a
listener, one reader per connection, an event queue, a notification pipe and the main loop. A
send on the queue and the pipe write that announces it are separate steps of every producer, so
a run is any interleaving. `EchoServer` composes it with the pure `update` of
`examples/tcp-echo-server.roc`. `HostLoop` is the body of `wait_for_next_event` as a loop over a
script of clock readings, poll results and arrivals; its assumption about the other threads
(`Covered`) is proved of every protocol run. `HostEffects` is `handle_effects` on the reference-counted
heap, sharing its handle table with the wait, and `HostLedger` is `rust_main` on both: Roc code and the
environment are parameters that meet a contract, a ledger of references is kept beside the heap, and
a record of the run says what became of every heap, event, handle and write.

**The Cargo version rewriter** (`scripts/check_release_version.py`). `CargoText` has Python's `strip`,
`partition` and `splitlines` with all the separators they know; `CargoVersion` has the two rewriting
loops, and `CargoRewrite` says what they do to the characters of a file.

Where the source's loops and objects change state, the model has classes, loops and
`modifies` clauses; specification functions and lemmas stand beside them.

## What came out

- A release, however deep, frees exactly the unreachable cells, each once, and its result is
  determined by the accounting alone (`ReleaseFreesExactly`, `ReleaseIsDetermined`). `incref(n)` followed by n
  releases restores the heap although one is shallow and the other deep.
- Concurrent releases never touch freed memory and never free twice. They can leave garbage: if
  two threads both see `has_one_ref` false, the elements of a list stay unreleased (`RaceLeaks`). That is the only
  way: the threads' references account for the heap exactly when no list holding a counted reference
  was dropped for the last time unseen (`TeardownExactly`, `EmptiesExactly`), which takes a second thread (`AloneRun`).
- `decref_box` keeps the books exactly when the box's payload is static (`BoxFreeIsExact`, with a failing box in `BoxFreeCanLeak`), and finds the
  right block exactly when the box has a one-word header and at most word alignment (`DecrefBoxFits`).
- `shifted_capacity` reports overflow only of the shift amount; the capacity comes back exactly below
  2^63 (`CapacityComesBack`).
- A timer that fires because `poll` timed out is less than a millisecond early if the distance was
  below 2^31 milliseconds when the timeout was computed (`TimerEarlyBound`), and only then if `poll` returns
  the moment its timeout ends (`TimerEarlyExactly`). The comment in the source says only that the timer
  should fire.
- `handle_effects` gives up references that the elements of the effects list hold. If the host is the
  list's only owner, that is sound. If somebody else still holds the list (an application that keeps it in its model, say),
  the books balance afterwards exactly when every buffer sent before an Exit is static data
  (`SharedListExactly`); `SharedListFails` is such a list for which they do not.
- The doc comments of `is_unique` promise a count of exactly one; strings and lists also say yes
  for static data, boxes do not (`IsUnique`, `IsUniqueBox`).
- A rewritten Cargo file splits into the same lines exactly when the version has no line break and
  the old line ended in LF, CRLF or the end of the file (`RewriteKeepsLines`). After any other line ending that
  Python knows, the rewritten line swallows the next one (`LostEndingMergesLines`).

## Model

| member | source | states |
|---|---|---|
| RocHeapSteps.ReleaseStatic | src/roc_platform_abi.rs:594-596 | an owner of static data may vanish without a trace: the early return keeps the accounting |
| RocHeapSteps.ReleaseShared | src/roc_platform_abi.rs:597-605 | decrementing a count above one keeps the accounting with one owner less |
| RocHeapSteps.BeginTeardown | src/roc_platform_abi.rs:2138-2144 | the last owner takes over everything the allocation holds, and nobody else can name it any more |
| RocHeapSteps.EndTeardown | src/roc_platform_abi.rs:383-390 | freeing an allocation whose contents have been released keeps the accounting |
| RocHeapSteps.Retain | src/roc_platform_abi.rs:613-627 | `fetch_add(n)` past the static check adds exactly n owners |
| RocHeapSteps.Allocate | src/roc_platform_abi.rs:773-796 | a new allocation starts at one and takes over the references put into it |
| RocHeapSteps.BoxFreeIsExact | src/roc_platform_abi.rs:308-316 | freeing a box without looking inside keeps the accounting if and only if its payload holds only static references |
| RocHeapSteps.BoxFreeCanLeak | src/roc_platform_abi.rs:308-316 | a box holding the only reference to a string: freeing the box breaks the accounting |
| RocHeapReachability.LiveIffReachable | src/roc_platform_abi.rs:368-391 | in an accounted, acyclic heap the counted live cells are exactly those reachable from an owner: no garbage, no dangling path |
| RocHeapReachability.ReleaseFreesExactly | src/roc_platform_abi.rs:2128-2211 | any release that keeps the accounting frees a counted cell if and only if the remaining owners cannot reach it, and leaves the others' contents alone |
| RocHeapReachability.ReleaseIsDetermined | src/roc_platform_abi.rs:2128-2211 | there is only one heap such a release can end in |
| RocHeapReachability.NoOwnersNoCells | src/roc_platform_abi.rs:2282-2309 | with no owner left, only static data is live |
| RocHeapReachability.ReleaseConserves | src/roc_platform_abi.rs:2806-2816 | a surviving count drops by the released references plus one for each reference to it in a freed cell: nothing is dropped twice, no element or capture forgotten |
| RocHeapReachability.LastReferenceFrees | src/roc_platform_abi.rs:884-893 | an allocation whose only reference is released is freed |
| RocHeapReachability.SharedSurvives | src/roc_platform_abi.rs:884-893 | a cell somebody still owns survives any release with its contents |
| RocHeaps.RocHeap.Allocate | src/roc_platform_abi.rs:773-796 | allocation keeps the whole heap in order, acyclicity included |
| RocHeaps.RocHeap.FetchSub | src/roc_platform_abi.rs:598-598 | returns the old count, changes only that word; requires the cell to be live |
| RocHeaps.RocHeap.DecrefWord | src/roc_platform_abi.rs:824-846 | null, static, shared and last case of one refcount word, each with the exact new heap |
| RocHeaps.RocHeap.HasOneRef | src/roc_platform_abi.rs:884-893 | true if and only if there is an allocation and this is the only counted reference to it in the whole heap |
| RocHeaps.RocHeap.IsUnique | src/roc_platform_abi.rs:631-643 | true if and only if there is no allocation, it is static, or this is the only reference in the heap |
| RocHeaps.RocHeap.IsUniqueBox | src/roc_platform_abi.rs:417-424 | as above, but false for static data |
| RocHeaps.RocHeap.AllocationItems | src/roc_platform_abi.rs:734-765 | a whole list and any slice of it both yield every element of the backing allocation |
| RocHeaps.RocHeap.Decref | src/roc_platform_abi.rs:2163-2185 | over every value tree: terminates, keeps the accounting without the released owner, disturbs no cell under teardown, frees no cell twice |
| RocHeaps.RocHeap.DecrefAll | src/roc_platform_abi.rs:2282-2294 | the same for every sequence of fields, elements or captures |
| RocHeaps.RocHeap.DecrefDeepList | src/roc_platform_abi.rs:2136-2145 | one owner of a whole list or slice is gone and the accounting holds without it; if it was the sole owner, the list is freed and every element of the backing allocation has lost the list's reference |
| RocHeaps.RocHeap.DropElements | src/roc_platform_abi.rs:2138-2143 | whatever the element loop releases, the list's own count is still one after it |
| RocHeaps.RocHeap.DecrefLate | src/roc_platform_abi.rs:332-391 | one owner of a callable, or of a box with a payload callback, is gone and the accounting holds without it; if it was the last, so are the references of its captures or payload |
| RocHeaps.RocHeap.FinishLate | src/roc_platform_abi.rs:382-390 | from the heap whose count already reads zero, the release that began before the decrement is completed, with and without a callback |
| RocHeaps.RocHeap.Incref | src/roc_platform_abi.rs:2192-2210 | n more owners of every reference in the value, shallowly, nothing else changed |
| RocHeaps.RocHeap.Release | src/roc_platform_abi.rs:2128-2211 | a caller's release: frees exactly what remaining owners cannot reach, the new deallocations are exactly those cells, each once, and every other count changes by exactly the references lost |
| RocHeaps.RocHeap.ReleaseEveryOwner | src/roc_platform_abi.rs:2795-2819 | releasing every root leaves only static data, untouched |
| RocHeaps.RocHeap.IncrefThenDecrefs | src/roc_platform_abi.rs:2154-2159 | `incref(n)` and then n releases restore the heap cell for cell |
| RocHeaps.EveryPointerCounts | src/roc_platform_abi.rs:2163-2185 | a pointer is one reference of its owner, whatever kind of value it is in |
| RocHeaps.EveryFieldCounts | src/roc_platform_abi.rs:2163-2185 | and so is each pointer in the fields of a record, as often as it stands there |
| RocHeaps.ReleaseHolder | src/roc_platform_abi.rs:368-391 | a list of refcounted elements, a box with a payload callback and a callable with an `on_drop`, each holding the only reference to a string: releasing it frees both |
| ConcurrentRoc.StepKeeps | src/roc_platform_abi.rs:597-605 | every atomic step of every thread keeps the accounting, each teardown belonging to one frame |
| ConcurrentRoc.RunInv | src/roc_platform_abi.rs:613-627 | the invariant holds in every state of every run from an accounted heap |
| ConcurrentRoc.TopIsSafe | src/roc_platform_abi.rs:368-391 | whatever a frame does next touches live cells only, decrements a positive count, and frees only what it alone is tearing down |
| ConcurrentRoc.TouchedIsLive | src/roc_platform_abi.rs:368-391 | no use after free in any state of any run |
| ConcurrentRoc.CountIsReferences | src/roc_platform_abi.rs:269-281 | a positive count not under teardown equals the references in threads, in cells, or leaked |
| ConcurrentRoc.AlwaysEnabled | src/roc_platform_abi.rs:585-606 | no thread is stuck in the middle of an operation |
| ConcurrentRoc.IdleMayAct | src/roc_platform_abi.rs:597-627 | a thread between operations may release or retain any reference it owns, hand references over, or allocate |
| ConcurrentRoc.StepGone | src/roc_platform_abi.rs:597-605 | an allocation dies in a step if and only if a `fetch_sub` returned one for it in that step, and never again after |
| ConcurrentRoc.OneLastDrop | src/roc_platform_abi.rs:597-599 | at most one `fetch_sub` in a whole run sees one for a given allocation |
| ConcurrentRoc.SomeLastDrop | src/roc_platform_abi.rs:597-599 | and if the allocation died, one did |
| ConcurrentRoc.GoneStays | src/roc_platform_abi.rs:600-605 | an allocation whose last reference was dropped never comes back |
| ConcurrentRoc.FreedOnce | src/roc_platform_abi.rs:600-605 | no double free: in a whole run an allocation is deallocated at most once, and afterwards no thread's next operation is on it |
| ConcurrentRoc.StaticUntouched | src/roc_platform_abi.rs:594-596 | static data is never written by any step |
| ConcurrentRoc.RaceLeaks | src/roc_platform_abi.rs:2136-2145 | a run of two threads that both see `has_one_ref` false, frees the list and leaks its element |
| ConcurrentTeardown.LeakedExactly | src/roc_platform_abi.rs:2136-2145 | references go missing in a run if and only if some step was the last `fetch_sub` on a list that holds references and that nobody had seen unshared |
| ConcurrentTeardown.LeaksCountedExactly | src/roc_platform_abi.rs:2136-2145 | the same for references to counted data, which stay counted for the rest of the run |
| ConcurrentTeardown.IdleAccounted | src/roc_platform_abi.rs:585-606 | between operations the counts equal the references held by threads and cells if and only if no counted reference was leaked |
| ConcurrentTeardown.TeardownExactly | src/roc_platform_abi.rs:2128-2211 | for any number of threads and any run: the threads' references account for the heap if and only if no such step on a counted reference occurred |
| ConcurrentTeardown.RunRanked | src/roc_platform_abi.rs:773-796 | a run that starts without cycles never makes one |
| ConcurrentTeardown.NoGarbage | src/roc_platform_abi.rs:2128-2211 | without such a step, the counted cells between operations are exactly those the threads can reach |
| ConcurrentTeardown.EmptiesExactly | src/roc_platform_abi.rs:2128-2211 | once all threads have let go of everything, only static data is left if and only if no such step occurred |
| ConcurrentTeardown.AloneRun | src/roc_platform_abi.rs:2136-2145 | a single thread never leaks, in any state of any run |
| ConcurrentTeardown.AloneRunEmpties | src/roc_platform_abi.rs:2128-2211 | a single thread that has let go of everything has emptied the heap of counted cells |
| LittleEndian.ValOfBytes | src/roc_platform_abi.rs:465-471 | a word survives being stored as bytes |
| LittleEndian.BytesOfVal | src/roc_platform_abi.rs:465-471 | bytes survive being read as a word |
| LittleEndian.TopBit | src/roc_platform_abi.rs:494-498 | the sign of a word is the top bit of its last byte |
| DefaultAllocators.RocAlloc | src/roc_platform_abi.rs:2865-2884 | overflow and null cases exactly; otherwise one new block, its size word below the user's bytes, nothing else disturbed |
| DefaultAllocators.RocDealloc | src/roc_platform_abi.rs:2887-2900 | for every size and alignment, the base and layout handed back are those of the block; exactly its bytes leave the memory |
| DefaultAllocators.RocRealloc | src/roc_platform_abi.rs:2903-2927 | the common prefix of user bytes survives, the size word is renewed, other blocks are untouched |
| DefaultAllocators.ReallocChain | src/roc_platform_abi.rs:2903-2927 | after any chain of resizes the bytes that fitted into every size are still there |
| RocLayout.LayoutIsSound | src/roc_platform_abi.rs:288-306 | for every size and power-of-two alignment: size word, count word, refcount word and payload do not overlap, fill the block to its end, and the data is aligned |
| RocLayout.HeaderIsLeast | src/roc_platform_abi.rs:295-301 | the header is the least number of bytes that holds its words and keeps the data aligned, and so is the space below it for the size word |
| RocLayout.PowersDivide | src/roc_platform_abi.rs:688-692 | the larger of two powers of two is a multiple of the smaller, on which all header alignment rests |
| RocLayout.AllocateData | src/roc_platform_abi.rs:288-306 | overflow and null cases exactly; otherwise a block with count one and the header its alignment asks for |
| RocLayout.FreeData | src/roc_platform_abi.rs:438-452 | the free path recovers base and layout for every header; exactly that block goes |
| RocLayout.DropData | src/roc_platform_abi.rs:585-606 | static, shared and last case on the bytes of the refcount word |
| RocLayout.DropSome | src/roc_platform_abi.rs:585-606 | of n owners' drops exactly the last frees the block; those before change the refcount word and nothing else |
| RocLayout.AllocateFillDrop | src/roc_platform_abi.rs:368-391 | allocating, filling and dropping restores the memory byte for byte |
| RocLayout.DecrefBoxFits | src/roc_platform_abi.rs:308-316 | the fixed parameters of `decref_box` give the right base and layout if and only if the header is one word and the alignment at most a word's |
| RocLists.AllocateCallable | src/roc_platform_abi.rs:234-255 | count one, both code pointers readable, captures 16-aligned, and a layout that the box free path recovers |
| RocStrs.ImageOfImage | src/roc_platform_abi.rs:465-471 | the 24 bytes survive being read as three words |
| RocStrs.StrOfImage | src/roc_platform_abi.rs:465-471 | the three words survive being stored as 24 bytes |
| RocStrs.TagViewsAgree | src/roc_platform_abi.rs:494-517 | the sign of the length field and the top bit of byte 23 are the same tag; a length below 2^63 is reported either way |
| RocStrs.CapacityComesBack | src/roc_platform_abi.rs:174-177 | the shifted capacity is even, and recoverable if and only if the capacity is below 2^63 |
| RocStrs.SmallFromSlice | src/roc_platform_abi.rs:548-555 | up to 23 bytes written over the words themselves show the slice in every memory |
| RocStrs.FromSlice | src/roc_platform_abi.rs:546-573 | fails exactly if the bytes are the encoding of no text or, for 24 bytes and more, on a null allocation; otherwise shows the slice, count one |
| Utf8Text.Utf8Exactly | src/roc_platform_abi.rs:547-547 | the check accepts a byte sequence if and only if it is the encoding of some sequence of scalar values |
| Utf8Text.TextIsUnique | src/roc_platform_abi.rs:541-543 | and of one only: a text can be told from its bytes |
| Utf8Text.Samples | src/roc_platform_abi.rs:547-547 | the bytes of a letter of each length, the two of é among them |
| Utf8Text.NotTexts | src/roc_platform_abi.rs:547-547 | an overlong form, a surrogate, a number that is too large and a character cut short are rejected |
| RocStrs.ShowsIsRead | src/roc_platform_abi.rs:502-538 | what a string shows is what `as_slice` and `len` return; small if and only if at most 23 bytes; otherwise its capacity is its length; never taken for a slice |
| RocStrs.SameContents | src/roc_platform_abi.rs:525-528 | no string shows two different contents |
| RocStrs.Decref | src/roc_platform_abi.rs:585-606 | small and null strings are no-ops; otherwise the allocation found through the tag loses one reference |
| RocStrs.RoundTrip | src/roc_platform_abi.rs:525-606 | from_slice, as_slice, decref: the bytes of every text come back and the memory is what it was |
| RocStrs.ShowsAfterAllocation | src/roc_platform_abi.rs:558-572 | a string keeps its contents whatever is allocated afterwards |
| RocStrs.ShowsAfterDrop | src/roc_platform_abi.rs:585-606 | a string keeps its contents whatever reference is dropped, except the last to its own allocation |
| RocStrs.SliceFindsOwner | src/roc_platform_abi.rs:646-652 | a slice recovers the allocation's address if and only if that address is even |
| RocStrs.StringSlice | src/roc_platform_abi.rs:646-652 | slices of strings made by `from_slice` read the right bytes and share the refcount word |
| RocLists.Allocate | src/roc_platform_abi.rs:773-796 | empty, overflow and null cases exactly; otherwise count one and, for refcounted elements, the count word |
| RocLists.ElementsFit | src/roc_platform_abi.rs:773-796 | element i lies i element sizes into the data, aligned, and the last ends where the block ends |
| RocLists.FromElements | src/roc_platform_abi.rs:804-818 | the elements' bytes are copied, header words intact |
| RocLists.ElementCount | src/roc_platform_abi.rs:734-748 | with refcounted elements every slice finds the length of the whole allocation |
| RocLists.DecrefList | src/roc_platform_abi.rs:824-846 | a slice releases the allocation it was cut from |
| RocLists.ListRoundTrip | src/roc_platform_abi.rs:750-846 | the element bytes come back, and dropping the list or any slice of it restores the memory |
| TcpInvariant.StepInv | src/lib.rs:144-199 | every step of every thread keeps the protocol invariant |
| TcpInvariant.RunInv | src/lib.rs:144-280 | the invariant holds in every state of every run, server or client |
| TcpInvariant.NoLostWakeup | src/lib.rs:487-520 | a drained byte always finds an event; an empty pipe with no producer between send and notify means an empty queue |
| TcpInvariant.NobodyIsStuck | src/lib.rs:144-199 | in every state of every run the listener, every reader and the main loop can take their next step: a server accepts without end, a client connects once, every byte read gets through, and every readable byte finds an event |
| TcpInvariant.UpdatesHold | src/lib.rs:373-377 | the subscriptions an update returns hold until the next update, and the effects it returns are the ones that run |
| TcpInvariant.BytesFollowEvents | src/lib.rs:115-117 | between any two points of a run, bytes written plus producers about to write equal events sent plus those waiting |
| TcpInvariant.EventOrder | src/lib.rs:168-195 | per id, events dequeued, and dequeued then queued, are prefixes of Connected, Data*, Disconnected |
| TcpInvariant.BytesConserved | src/lib.rs:174-195 | dequeued, then queued, then the chunk in hand: exactly the bytes read, in order, for any chunking |
| TcpInvariant.HeadIsNew | src/lib.rs:156-166 | a Connected at the queue's head belongs to an id never seen before: ids are not reused, also after a failed `try_clone` |
| TcpInvariant.HeadIsKnown | src/lib.rs:177-193 | Data and Disconnected are taken only after their Connected and before no other Disconnected |
| TcpInvariant.WritersExact | src/lib.rs:498-513 | handles are exactly the ids connected, not disconnected and without a failed send, whatever is subscribed |
| TcpInvariant.NeverWrittenAgain | src/lib.rs:643-656 | an id whose handle is gone never gets one again and no byte is written to it |
| TcpInvariant.DeliveredIsPrefix | src/lib.rs:584-599 | while `tcp_receive` stays subscribed, the application has been given a prefix of what was read |
| TcpProtocol.ToldExactly | src/lib.rs:544-600 | for all subscriptions and events: something is told if and only if it is subscribed to, in server or client mode, and then the very event, with its kind, id and bytes |
| TcpInvariant.DeliveredInOrder | src/lib.rs:494-513 | while connections stay subscribed to in one of the two ways, the application is told of those of an id exactly as they were taken off the queue, in order; and of its messages, while these are subscribed to as well |
| TcpInvariant.MessagesFit | src/lib.rs:171-184 | every message ever queued carries between 1 and 4096 bytes |
| EchoServer.InOrderStep | src/lib.rs:144-169 | connections are announced in ascending id order, each at most once |
| EchoServer.KeepOthersExact | examples/tcp-echo-server.roc:70-77 | `keep_if` removes exactly the id and keeps the order |
| EchoServer.EchoStepInv | examples/tcp-echo-server.roc:59-87 | every step of host and application keeps the combined invariant |
| EchoServer.EchoRunInv | examples/tcp-echo-server.roc:59-87 | and so does every run |
| EchoServer.AlwaysAnswers | examples/tcp-echo-server.roc:59-87 | whatever the application is told in a run, its update is a step of the composed system |
| EchoServer.ClientListExact | examples/tcp-echo-server.roc:61-77 | between events the client list is the open connections, in order, without repetition; it contains every writable id, and equals them if no send failed |
| EchoServer.OneSendPerClient | examples/tcp-echo-server.roc:79-85 | a message asks for exactly one send of the same bytes per open connection, in connection order |
| EchoServer.LogExact | examples/tcp-echo-server.roc:59-87 | between events the activity log has one entry per event, in order and of its kind; an echo's entry has the number of bytes and then that of the connections open at the time |
| EchoServer.EchoesEverything | src/lib.rs:643-656 | at a loop head a client was sent everything anyone said while it was connected, in order; after a failed send, a prefix |
| HostLoop.TimerEarlyBound | src/lib.rs:459-484 | if `poll` waits at least its timeout and the distance is below 2^31 ms, the timer is less than a millisecond early |
| HostLoop.TimerEarlyExactly | src/lib.rs:467-469 | if it waits exactly that long, the bound holds if and only if the distance is below 2^31 ms |
| HostLoop.RunsAreCovered | src/lib.rs:168-193 | whatever the protocol's threads do while the loop waits, every pipe byte is backed by a queued event |
| HostLoop.TcpState.TakeOne | src/lib.rs:494-513 | one byte and at most one event go; the handle table follows the event; it is told, with its kind, id and bytes, if and only if it is subscribed to |
| HostLoop.TcpState.TakeOneIsReceive | src/lib.rs:494-513 | a loop state that mirrors a protocol state still does after a readable turn and a DrainByte and a Receive (or ReceiveNothing) step, with the same event to report |
| HostLoop.TcpState.WaitForNextEvent | src/lib.rs:412-538 | returns what the simple selector returns; an event returned is the last one taken, with its kind, id and bytes, and the only one taken that is subscribed to; unsubscribed events cost one byte and one event each, every turn that did not return was idle, every outcome is explained, a timer is never too early |
| HostLoop.TcpState.OneTurn | src/lib.rs:446-537 | one trip round the loop follows the selector and keeps the books |
| HostEffects.ReleasedOrNot | src/lib.rs:626-666 | the references in the effects split into those released and those left |
| HostEffects.EffectsOwn | src/lib.rs:621-626 | the list of effects in memory holds exactly the references the effects name |
| HostEffects.ShowsEachEffect | src/roc_platform_abi.rs:1216-1254 | an effects list shows its effects from its start on, each with its tag and payload |
| HostEffects.Host.SendOne | src/lib.rs:643-662 | writes the elements of the buffer that the slice shows, `length` of them from `start` on, if there is a handle; drops the handle if that fails, releases the buffer either way, and reads it only while live |
| HostEffects.Host.HandleEffects | src/lib.rs:621-666 | told effect by effect (`AsAsked`): the code is that of the first Exit; the writes are, in order, those of the sends before it that find a handle, each of the elements its slice shows; a handle is left if and only if no write to it failed; exactly the sent buffers' references are given up; after every effect the heap is the one the sends so far make, and in balance |
| HostEffects.Host.RunEffectList | src/lib.rs:621-626 | the same for the list, or slice, as handed over: if the host is its only owner it takes over the elements; otherwise only static buffers may be sent |
| HostEffects.ReleaseWithoutOwning | src/roc_platform_abi.rs:819-823 | a release by somebody who owns nothing keeps the books if and only if the data is static |
| HostEffects.SharedListExactly | src/lib.rs:626-661 | after the sends of a list that stays somebody's, the books balance for the same owners if and only if every buffer sent before an Exit is static |
| HostEffects.SharedListFails | src/lib.rs:626-661 | a list kept by the application too, with one counted buffer: the send frees the buffer the list still refers to |
| HostEffects.EffectIsStep | src/lib.rs:626-664 | one effect leaves the same handles and puts the same bytes on the wire as the protocol's RunEffect step |
| HostEffects.WritesExactly | src/lib.rs:626-657 | the recursive definition of the writes lists exactly the sends that find a handle, in order, with the elements their slices show |
| HostEffects.WritersLeftExactly | src/lib.rs:651-656 | a handle is left if and only if there was one and no write to it failed |
| HostEffects.ExitExactly | src/lib.rs:628-630 | the exit code is that of the first Exit, and there is none if and only if there is no Exit |
| HostEffects.BytesComeBack | src/lib.rs:649-649 | a buffer made of bytes gives them back |
| HostEffects.CountIsOwners | src/roc_platform_abi.rs:824-846 | an allocation only outsiders refer to is live exactly while they do, its count their number |
| HostEffects.BroadcastBuffer | src/lib.rs:621-666 | at every stage of a run, a buffer only the sends refer to is live with the number of sends not yet made as its count, and freed once there are none |
| HostEffects.Host.HandleBroadcast | src/lib.rs:621-666 | the run itself, among any other effects: the buffer goes exactly at the last of its sends, and never if an Exit comes before that |
| HostLedger.RenderView | src/lib.rs:350-364 | the heap is the one `roc_view` makes of the heap with the model retained; the reference taken is the one given; the rows stay with the host |
| HostLedger.Wait | src/lib.rs:366-372 | the outcome is what the selector picks, and what the record asks for (`AsSubscribed`): a timer that is due at its own time, typed bytes, or the last event taken, and nothing it asked for came before; events taken and events left are those that were waiting or arrived, bytes likewise, the handles follow the events taken, and nothing is written |
| HostLedger.MakeBuffer | src/roc_platform_abi.rs:804-818 | no bytes, no allocation; otherwise a new list of count one holding them |
| HostLedger.TakeEvent | src/lib.rs:499-600 | the event is made by the closure of the record that belongs to it (`Delivers`): `on_connected` or `on_disconnected` of the server's peer if there is one, else of the client's, the one for messages, or the one for input; with a fresh list that holds the bytes one by one; for the timer, the event is the record's own box; the host owned all it passed |
| HostLedger.Adopt | src/lib.rs:374-376 | the reply's model and record become the host's, its effects run on the heap; the bytes written are those its sends ask for of open handles, handles whose write failed are gone, the queue and the pipe stay; an Exit ends the program |
| HostLedger.Process | src/lib.rs:366-376 | from an event to its effects: made by its own closure, passed to `roc_update` with the model, and the effects of the answer run as they ask for; the ledger says what was passed and handed over |
| HostLedger.OneTurn | src/lib.rs:347-377 | heap, model, record, status, ledger, queue, pipe, handles and writes after a turn are what its record says; told by the subscriptions' own fields (`AsHappened`), what woke it was asked for, its event was made by the right closure, its effects did what they ask for, and it exits with 2 or the first Exit's code; the books balance |
| HostLedger.Start | src/lib.rs:328-345 | the same for `roc_init` and its effects, including an Exit there, before any connection exists |
| HostLedger.RustMain | src/lib.rs:312-378 | for any lawful Roc code, number of turns, and environment that is honest about the TCP state the program started or did not: every turn is as `AsHappened` says, every heap, value, queue, pipe, handle table and write follows from the one before, the ledger is the sum over the turns, one model reference and one record are owned at the loop head, the heap's counts agree, and nothing was given away that had not been received |
| HostLedger.GivenWasReceived | src/lib.rs:658-661 | what was given away is part of what was received, with the model's reference to spare |
| HostLedger.GreeterIsLawful | src/roc_platform_abi.rs:2986-3009 | an application that listens for connections and answers each event with a send keeps the ownership contract asked of Roc code |
| HostLedger.BusyIsHonest | src/lib.rs:446-493 | an environment in which connections keep arriving, their bytes are written and `poll` reports them keeps the assumptions made of it |
| HostLedger.FirstGreeting | src/lib.rs:347-377 | the two together: the first turn takes a Connected event to the application, made by the closure for arrivals and not the one for departures, and of the slice it answers with the second byte of the buffer is written to the new handle |
| CargoText.JoinOfSplit | scripts/check_release_version.py:38-38 | splitting keeps every character |
| CargoText.SplitJoinExactly | scripts/check_release_version.py:56-56 | lines survive being joined and split if and only if each is a line where it stands |
| CargoText.LineLengthExactly | scripts/check_release_version.py:38-38 | the first line is what ends at the first line boundary, CR LF taken as one |
| CargoText.SpacesAndBreaks | scripts/check_release_version.py:43-46 | the characters that `strip` removes and those that `splitlines` splits at |
| CargoText.StripOf | scripts/check_release_version.py:43-43 | stripping leaves what lies between the white space at either end |
| CargoVersion.VersionLineStarts | scripts/check_release_version.py:46-48 | the key test implies the prefix test, so the latter only short-cuts |
| CargoVersion.VersionLineRole | scripts/check_release_version.py:43-47 | a version line is no header, package start, source or name line |
| CargoVersion.NewLineIsVersionLine | scripts/check_release_version.py:24-34 | the rewritten line keeps key text and ending and forgets the earlier version when rewritten again |
| CargoVersion.UpdateManifest | scripts/check_release_version.py:37-56 | the loop computes the reference update, which rewrites the first version line of the package section, with the source's two errors; the `CargoRewrite` rows say what that is in characters |
| CargoRewrite.ManifestRewritesFirst | scripts/check_release_version.py:37-56 | said of the characters: of the lines that name the version and whose last heading before them is `[package]`, the first gets its text before the `=`, then the new version in quotes and its LF or CRLF; nothing else changes; without an `=` it is an error |
| CargoRewrite.ManifestFailsExactly | scripts/check_release_version.py:53-54 | no version is found if and only if there is no such line |
| CargoRewrite.OrdinaryManifest | scripts/check_release_version.py:37-56 | the same from what a reader sees: one package heading, and the first line after it that is a heading or names the version |
| CargoRewrite.BumpManifest | scripts/check_release_version.py:37-56 | a whole manifest, with a workspace version and a dotted key before the line that is rewritten |
| CargoVersion.NoPackageVersionExactly | scripts/check_release_version.py:53-54 | the error is reported if and only if no such line exists |
| CargoVersion.PackageStarts | scripts/check_release_version.py:63-66 | consecutive starts delimit exactly the package blocks |
| CargoVersion.BlockMatches | scripts/check_release_version.py:69-79 | one block contributes exactly its matching lines |
| CargoVersion.UpdateLock | scripts/check_release_version.py:59-89 | rewrites the only version line of a sourceless block of that name in the file, or reports how many there are; the `CargoRewrite` rows say what that is in characters |
| CargoRewrite.LockRewritesOnly | scripts/check_release_version.py:59-89 | said of the characters: the only line that names the version in a `[[package]]` block of that name without a `source =` line is rewritten, and nothing else changes |
| CargoRewrite.LockFailsExactly | scripts/check_release_version.py:81-85 | the update fails unless there is exactly one such line, and reports how many there are |
| CargoRewrite.BumpLock | scripts/check_release_version.py:59-89 | a whole lock file, with a registry package and the local one of the same name |
| CargoVersion.RewriteKeepsLines | scripts/check_release_version.py:24-34 | the rewritten file splits into the same lines but one, if and only if the version has no line break and the ending was LF, CRLF or end of file |
| CargoVersion.LostEndingMergesLines | scripts/check_release_version.py:28-33 | after any other ending the rewritten line swallows the next |
| CargoVersion.ManifestLastWriterWins | scripts/check_release_version.py:37-56 | writing v and then w is writing w; twice is once |
| CargoVersion.LockLastWriterWins | scripts/check_release_version.py:59-89 | the same for the lock file |

## Left out

- RocHeaps.RocHeap.Decref: which boxes have a payload callback is a property of the value; the generated helpers only ever use the plain `decref_box`, and `BoxFreeIsExact` and `DecrefBoxFits` say what that requires.
- RocHeaps.RocHeap.Allocate: addresses name allocations and are not reused; reuse of addresses is in `RawMemory` only.
- RocHeaps.RocHeap.Incref: counts are unbounded; overflow of the 64-bit word is not modelled.
- ConcurrentRoc.StepKeeps: atomics are sequentially consistent single steps; the acquire and release orderings are not modelled.
- ConcurrentTeardown.NoGarbage: full teardown is claimed for runs without an unseen last drop only, since it is false of the others.
- HostEffects.Host.RunEffectList: requires the host to be the list's only owner, or every buffer sent before an Exit to be static; `SharedListExactly` says that anything else goes wrong.
- HostLedger.RustMain: Roc code is any function of the heap that keeps its ownership contract; that compiled code does so is not modelled. The host keeps old records, rows and effects lists for ever, so nothing is claimed about leaks. What is rendered and the terminal are left out, and so is when a write fails: the environment says which do.
- HostLoop.TcpState.WaitForNextEvent: clock, `poll` and stdin are a script; a non-decreasing clock and a `poll` that waits at least its timeout are assumptions, and nothing says that idle turns end.
- TcpInvariant.RunInv: pipe writes succeed, the queue is FIFO, ids stay below 2^64; failures to bind or connect, thread shutdown and descriptor clean-up are not modelled.
- DefaultAllocators.ReallocChain: the global allocator is a parameter that meets its documented contract.
- RocStrs.FromSlice: pointer width 64, little-endian; the 32-bit layout is not modelled.
- EchoServer.LogExact: an entry stands for a line of the log with its kind and its numbers; the wording and the numerals are not modelled.
- HostEffects.Host.HandleEffects: what Print and WriteToFile print is not recorded; they keep their references and otherwise do nothing.
- Compiled Roc code, terminal output, `init_tcp_from_subs` string handling, `ANSI.parse_raw_stdin` and the other example applications.
- `free_box_with`, which frees without counting.
- `cargo metadata`, file access and argument handling of the release script, and all other scripts.
