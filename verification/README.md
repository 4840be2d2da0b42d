# Verified model of the reference-counting, sorting and text core of `alloc`

This project models five parts of the `alloc` library and proves what their comments, documentation
and safety arguments promise.

**`Arc` under release/acquire memory (`arc_*.dfy`).** One allocation, any number of threads, every
interleaving. `ArcState` holds the full modification order of both counters, each write with the view
it releases, and per thread what it has observed (`cur`) and what an acquire fence would add (`acq`).
A plain load, and a failing compare-exchange, may read any write that is not older than what the
thread has observed; a read-modify-write reads the newest and continues its release sequence; a store
starts a new one. `ArcSteps` has one label for each atomic operation (and for each access to the data,
each drop, move and deallocation) of `Arc`, `Weak`, `UniqueArc` and `new_cyclic`, with a program
counter per thread; `Enabled` and `Next` are the branches of the code. A handle is held by the set of
threads that may use it: an owner is the only one, lending (`Lend`) and giving back (`GiveBackTo`) pass
on what the lender has observed, as sending or borrowing a value does, and `Sync` stands for all other
synchronisation between threads. `ArcCore` and `ArcInvariant` give the invariant; the `*_keeps` and
`*_steps` files show that each label keeps it; `ArcTheorems` and `ArcGuarantees` state what follows for
every reachable state, and `ArcRuns` exhibits runs that show where the guarantees end. `ArcLone` says
exactly when the checks of `get_mut`, `make_mut` and `try_unwrap` cannot fail on the only handle, and
`ArcFinal` exactly when the value 0 of `strong` is final. `ArcCalls` says
which sequences of its thread's own steps each call may take, among any steps of other threads, and
which writes a load in between may return. `ArcCode` is the code itself: methods of a class that record
the steps taken; each is proved to take exactly a sequence that `ArcCalls` allows it, and each answer is
tied to a write the caller could read.

**`sort_by_cached_key`, `repeat`, `to_vec` (`slice_*.dfy`, `raw_buffer.dfy`).** The loops on arrays,
proved against a stable insertion sort and against n-fold concatenation. `common.dfy` holds what several
parts share.

**The `Rc` drop cascade (`rc_*.dfy`).** A heap of cells whose values own handles to each other (`Rc`,
`rc::Weak`, `UniqueRc`). Dropping runs the recursive, re-entrant destruction in place; a destructor may
first run code of its own that upgrades, clones or drops other handles. `RcSemantics` says what a drop
does as a relation between heaps, with every act of every destructor, and when it aborts the process;
the methods of `RcCascade` are proved to do exactly that.

**`String` editing (`utf8.dfy`, `string_buffer.dfy`, `string_edit.dfy`, `string_lossy.dfy`).** UTF-8
(RFC 3629) with encoding by arithmetic and decoding by byte ranges, proved inverse; then the in-place
loops on the byte buffer, each proved equal to an operation on characters.

**`str` transformations (`str_*.dfy`).** `replace`, `join`, `to_lowercase`.

Results where the code and its comments disagree:

- `alloc/src/sync.rs:3256` says that a 0 read from `strong` stays 0 for good. Three steps lead away from 0,
  and no other (`ArcFinal.OnlyTheseRevive`): the store of `make_mut` (`alloc/src/sync.rs:2544`; a run that takes
  it is `ArcRuns.ZeroIsNotForever`), `into_arc` (`ArcRuns.NoneIsNotForeverForUniqueArc`) and the end of
  `new_cyclic`. What does hold: once `strong` was taken to 0, or the `UniqueArc` dropped, `strong` stays 0 as
  long as a `Weak` of that moment or a clone of one exists, and none of them upgrades (`ArcFinal.ZeroIsFinal`);
  in a construction under way an upgrade stays possible (`ArcFinal.UpgradableIff`). For `Arc::new` a refused
  `upgrade` always means the first (`ArcGuarantees.ZeroStaysWhileRefused`, `ArcGuarantees.NoneIsForever`).
- `get_mut` is documented to return the reference when no other handle exists (`alloc/src/sync.rs:2590`).
  With stale loads it can still fail (`ArcRuns.GetMutCanFailOnALoneHandle`); it cannot exactly when the
  caller has observed the newest write of both counters (`ArcLone.GetMutExactly`), which it has once all
  that was done through the other handles has been passed on to it (`ArcLone.SynchronisedOwnersSucceed`).
- `alloc/src/string.rs:1680` argues with `del_bytes >= ch.len_utf8()`. That is false
  (`StringEdit.RoomMayBeTooSmall`); `retain` is correct for another reason, and the proof uses that.
- `to_lowercase` cites `Final_Sigma`. Where a character is both cased and case-ignorable, the code and
  the regular expressions of section 3.13 of the Unicode Standard can differ
  (`StrLowercase.ReadingsDiffer`); `StrLowercase.WordFinalIsFinalSigma` says exactly when, and
  `StrLowercase.LowercaseIsStandard` for the whole string.
- `join_generic_copy` reserves by one call of `borrow` and copies by another. When the first piece comes out
  longer than everything reserved, the subtraction `reserved_len - pos` (`alloc/src/str.rs:164`) goes below 0;
  `StrJoin.JoinGenericCopy` says exactly when, `StrJoin.FirstMayExceed` gives such pieces.

## Model

| member | source | states |
|---|---|---|
| ArcCore.UniqueLoadIsExact | alloc/src/sync.rs:2758-2766 | a thread that alone uses an `Arc` and holds the weak lock cannot be fooled by a stale load: reading 1 from `strong` means that is the newest write and no other `Arc` exists |
| ArcCore.WindowLoadIsExact | alloc/src/sync.rs:2498-2517 | after `make_mut` took `strong` to 0 with acquire, its relaxed load of `weak` never shows the lock, and shows 1 only if that is the newest write and no `Weak` exists |
| ArcCore.WeakUserLoad | alloc/src/sync.rs:3402-3406 | a user of a `Weak` never reads the locked value, however stale its load |
| ArcTheorems.StepKeeps | alloc/src/sync.rs:383-392 | every atomic step of every operation keeps the invariant (counts, views, coverage of all events, places of all threads) |
| ArcTheorems.ReachableInv | alloc/src/sync.rs:760-773 | the invariant holds in every state of every run from `Arc::new`, `UniqueArc::new_in` and `new_cyclic_in` |
| ArcTheorems.CountsAreExact | alloc/src/sync.rs:383-392 | in every reachable state `strong` is the number of `Arc` handles (0 under construction and once the last holder took it down) and `weak`, unless locked, the number of `Weak` handles plus the implicit one while it is held |
| ArcTheorems.CountersNeverWrap | alloc/src/sync.rs:2388-2407 | both counters stay at most `MAX_REFCOUNT + 1` plus the threads between an over-limit increment and its abort, so with fewer threads than that leaves room for, neither wraps or reaches the sentinel |
| ArcTheorems.LockIsExclusive | alloc/src/sync.rs:2762-2771 | while `weak` is locked no `Weak` exists, one thread is inside `is_unique`, no other thread's step touches `weak`, and `store(1)` restores the exact count |
| ArcTheorems.SentinelIsNeverRead | alloc/src/sync.rs:2514-2517 | neither `make_mut`'s load of `weak` nor the one of `Weak::weak_count` ever returns the sentinel or 0 |
| ArcTheorems.WeakGrows | alloc/src/sync.rs:386-389 | a step of any label appends at most one write to `weak` and changes none |
| ArcGuarantees.GetMutIsExclusive | alloc/src/sync.rs:2754-2776 | when the uniqueness check of `get_mut` comes out true, the handle is the only one of either kind and every event of the allocation happened before |
| ArcGuarantees.MakeMutDecides | alloc/src/sync.rs:2503-2544 | `make_mut` with `strong` at 0 steals the data whenever a `Weak` exists and restores only as the sole handle |
| ArcGuarantees.MakeMutIsExclusive | alloc/src/sync.rs:2540-2549 | when `make_mut` returns in place, the handle is the only one and every use of the data happened before |
| ArcGuarantees.MutablyBorrowed | alloc/src/sync.rs:2616-2627 | while a `&mut T` is out no other thread can perform any event on the allocation |
| ArcGuarantees.DataRaceFree | alloc/src/sync.rs:2815-2829 | every access finds the data in place and the block not freed; reads happen after all writes; writes, drops and moves happen after all accesses through any handle |
| ArcGuarantees.UpgradeSeesTheData | alloc/src/sync.rs:3266-3273 | a successful `upgrade`, also after `new_cyclic` or `into_arc`, yields an `Arc` to data in place, all writes to which happened before |
| ArcGuarantees.OnceEach | alloc/src/sync.rs:2807-2856 | the data is consumed at most once and the block freed at most once, by one thread |
| ArcGuarantees.FreeIsLast | alloc/src/sync.rs:3468-3494 | the thread that deallocates has observed every event, so every access and the consumption happened before; no handle is left and the data is gone |
| ArcGuarantees.NothingAfterFree | alloc/src/sync.rs:3468-3494 | after the deallocation no handle exists and no step performs an event or frees again |
| ArcGuarantees.NoLeak | alloc/src/sync.rs:2109-2120 | once all handles are gone and all threads are done, the block has been freed and no data is left in it; it was consumed if there ever was an `Arc` |
| ArcGuarantees.NoneIsForever | alloc/src/sync.rs:3250-3279 | for `Arc::new`: after `upgrade` returned `None` on a `Weak`, no later `upgrade` on it or a clone made from it succeeds in any continuation of the run |
| ArcFinal.ZeroIsFinal | alloc/src/sync.rs:3254-3258 | for every constructor: once `strong` was taken to 0 (or the `UniqueArc` dropped), in every continuation it is 0 as long as a `Weak` that existed then or a clone of one exists, and no `upgrade` through any of them succeeds |
| ArcFinal.OnlyTheseRevive | alloc/src/sync.rs:3254-3258 | from 0 exactly the store of `make_mut`, `into_arc` and the end of `new_cyclic` lead to another value |
| ArcFinal.UpgradableIff | alloc/src/sync.rs:3250-3279 | when no thread is inside an operation, an existing `Weak` has a continuation in which it upgrades if and only if there is an `Arc`, a `UniqueArc` or a `new_cyclic` not yet ended |
| ArcGuarantees.ZeroStaysWhileRefused | alloc/src/sync.rs:3254-3258 | for `Arc::new`: in every continuation after an `upgrade` read 0, as long as that `Weak` or one cloned from it exists, `strong` is 0, and the last strong handle has been taken away |
| ArcGuarantees.NonesRecorded | alloc/src/sync.rs:3254-3258 | an `upgrade` that reads 0, at its first load or on a retry, marks its `Weak`, and clones of a marked `Weak` are marked |
| ArcGuarantees.WeakCountIsExact | alloc/src/sync.rs:3303-3322 | `Weak::weak_count` returns the number of `Weak` handles counted by the write its first load read (which may be stale), or 0: having then read a strong count above 0, subtracting the implicit reference is right |
| ArcGuarantees.IntoInnerReturnsOnce | alloc/src/sync.rs:1129-1140 | for `Arc`s from any constructor: if strong handles are only given up by `into_inner`, then with all threads done exactly one call has returned the value if there has been an `Arc` and none is left, and no call otherwise |
| ArcGuarantees.AtMostOneReturns | alloc/src/sync.rs:1221-1246 | however handles are used, at most one `into_inner` returns the value, and then the data has been moved out |
| ArcGuarantees.StoresFollowTheNewest | alloc/src/sync.rs:2771 | each plain store of a counter is made by a thread that has observed the newest write, so it cannot be ordered before it |
| ArcRuns.TryUnwrapOkCanLoseTheValue | alloc/src/sync.rs:1070-1081 | a run in which both of two handles end in `try_unwrap(..).ok()` and no call returns the value |
| ArcRuns.NoneIsNotForeverForUniqueArc | alloc/src/sync.rs:4752-4768 | a run after which a `Weak` that returned `None` can still be upgraded (by `into_arc`) |
| ArcRuns.GetMutCanFailOnALoneHandle | alloc/src/sync.rs:2764-2774 | a run after which a thread has the only handle, and its `get_mut` can fail because of a stale load |
| ArcRuns.ZeroIsNotForever | alloc/src/sync.rs:2544 | also for `Arc::new`: a run in which `strong` goes from 1 to 0, an `upgrade` returns `None`, and `make_mut` stores 1 again |
| ArcLone.GetMutExactly | alloc/src/sync.rs:2616-2627 | for every reachable state with one handle of any kind: `get_mut` on it succeeds on every path, whatever other threads do meanwhile, if and only if the caller has observed the newest write of `weak`, and of `strong` (itself or through that write of `weak`) |
| ArcLone.MakeMutExactly | alloc/src/sync.rs:2492-2550 | `make_mut` on the only handle works in place on every path if and only if the caller has observed the newest write of `strong`, and of `weak` (itself or through that write of `strong`); otherwise it may clone or move for nothing |
| ArcLone.UnwrapExactly | alloc/src/sync.rs:1106-1121 | `try_unwrap` on the only handle returns the value on every path if and only if the caller has observed the newest write of `strong` |
| ArcLone.SynchronisedOwnersSucceed | alloc/src/sync.rs:2590-2594 | what a caller can arrange: when every event of the allocation happened before, all three succeed on every path |
| ArcLone.LoneHandlesCanSucceed | alloc/src/sync.rs:2590-2594 | on the only handle each of the three has a run in which it succeeds, however stale its caller |
| ArcRuns.WholeLife | alloc/src/sync.rs:2754-2776 | from every reachable state with one handle of any kind, idle, there is a run in which `get_mut` succeeds, the data is written and dropped and the block is freed: the guarantees are not empty |
| ArcCode.Shared.GetMut | alloc/src/sync.rs:2616-2627 | as a method with interference, taking exactly the steps of the source: success leaves the caller with the only handle and all uses known; failure leaves it its `Arc` and means that a write the caller could read held another value than 1 (of `weak` when the call began, or of `strong`); it succeeds wherever no path fails, which `ArcLone.GetMutExactly` decides |
| ArcCode.Shared.MakeMut | alloc/src/sync.rs:2492-2550 | taking exactly the steps of the source: in place, the only handle, all uses known; moved, only after reading another `weak` than 1: the data here is consumed and the caller has the only handle of a new allocation; cloned, only after reading another `strong` than 1: likewise, and the old handle is dropped; a panic of the clone leaves the caller its `Arc`; in place wherever no path is otherwise |
| ArcCode.Shared.DropArc | alloc/src/sync.rs:2807-2856 | taking exactly the steps of the source: the call that finds the count at 1 fences, consumes the data, once (by `into_inner`: returns it, once), and drops the implicit weak reference; any other only gives up its handle |
| ArcCode.Shared.TryUnwrap | alloc/src/sync.rs:1106-1121 | taking exactly the steps of the source: success leaves the data consumed exactly once; failure leaves the caller its `Arc` and means that a write of `strong` the caller could read when it called held another value than 1; it succeeds wherever no path fails |
| ArcCode.Shared.DropWeak | alloc/src/sync.rs:3468-3494 | taking exactly the steps of the source: the call that finds `weak` at 1 fences and leaves the block freed, once; any other only gives up its handle |
| ArcCode.Shared.Upgrade | alloc/src/sync.rs:3250-3279 | a load and then exchanges, all of the tries given unless it ends: success gives an `Arc` of the caller's own to data in place, all writes known, and for `Arc::new` only through a `Weak` that had not returned `None`; `None` marks the `Weak` and means a 0 the caller could read; the panic means a count above `MAX_REFCOUNT` that it could read |
| ArcCode.Shared.Downgrade | alloc/src/sync.rs:1913-1950 | a load and then spins and exchanges, all of the tries given unless it ends: success makes a `Weak` of the caller's own; it ends in no other way than that or the overflow panic, which means a count above `MAX_REFCOUNT` that the caller could read |
| ArcCode.Shared.WeakCount | alloc/src/sync.rs:3303-3322 | the result is the number of `Weak` handles counted by the write of `weak` that the first load read, or 0 exactly if the second load read 0 from `strong` |
| ArcCalls.Then | alloc/src/sync.rs:2492-2550 | a call made inside another (the drop inside `make_mut`) is, with what came before, one sequence of the caller's steps among all others |
| ArcState.HalfTheRange | alloc/src/sync.rs:56 | `MAX_REFCOUNT`, the largest `isize`, is half the range of a counter |
| SortByCachedKey.StableSortIsStable | alloc/src/slice.rs:322-325 | the reference sorts by key, rearranges, and keeps every group of tied keys in order |
| SortByCachedKey.SortedPairsAreStable | alloc/src/slice.rs:322-325 | whatever correct unstable sort is used on the indexed keys, the outcome is the stable order |
| SortByCachedKey.SortsExists | alloc/src/slice.rs:325 | what is asked of the unstable sort can be met, whatever keys tie |
| SortByCachedKey.StableSortRenamed | alloc/src/slice.rs:319-325 | sorting indices and then following them is sorting the elements |
| SortByCachedKey.ChaseStep | alloc/src/slice.rs:326-333 | storing one more index extends exactly the chains that ended there |
| SortByCachedKey.PermuteStep | alloc/src/slice.rs:326-333 | one turn of the loop puts the element first at the sorted index into its final place, and every other element is still found by following stored indices |
| SortByCachedKey.SortByKey | alloc/src/slice.rs:318-334 | the macro's loops terminate (stored indices increase along the chain) and leave the slice in the stable order of the keys, for any index type that can count it |
| SortByCachedKey.Sort | alloc/src/slice.rs:312-356 | both index types give the same stable order; the key function is called once per element in order, and not at all below two elements |
| SortByCachedKey.SortedByIsStable | alloc/src/slice.rs:312-356 | the result is ordered by key, a rearrangement, and stable |
| Repeat.TimesPrefix | alloc/src/slice.rs:547-563 | the first elements of n copies are the first copies |
| Repeat.TimesAt | alloc/src/slice.rs:507-564 | every copy in n copies holds the elements in order |
| Repeat.HalvingStep | alloc/src/slice.rs:519-545 | doubling the copies and halving the rest keep the rest equal to what the copies leave of `n` |
| Repeat.Double | alloc/src/slice.rs:526-545 | the doubling loop never exceeds the capacity and ends with more than half of all copies |
| Repeat.Repeat | alloc/src/slice.rs:507-564 | fails exactly when the length times `n` overflows; otherwise gives the n-fold concatenation, in an allocation of exactly that size |
| Repeat.ToVec | alloc/src/slice.rs:410-446 | if a clone panics the vector holds exactly the clones made before it; otherwise all of them |
| RawBuffer.Buffer.CopyNonoverlapping | alloc/src/slice.rs:530-540 | copies one region onto a disjoint one and leaves everything else |
| RcKeeps.StartKeeps | alloc/src/rc.rs:387-398 | when the last owner goes, every value that owned this one is already being destroyed, so the destruction order stays an order of ownership |
| RcKeeps.DecWeakKeeps | alloc/src/rc.rs:3649-3660 | dropping a `Weak` frees only memory whose value is gone |
| RcKeeps.MoveKeeps | alloc/src/rc.rs:1047-1065 | moving a value into or out of an allocation, with the handles going the other way, keeps all counts exact |
| RcCascade.RcHeap.IncStrong | alloc/src/rc.rs:3735-3755 | aborts exactly when the count would wrap to 0 |
| RcCascade.RcHeap.IncWeak | alloc/src/rc.rs:3768-3788 | aborts exactly when the count would wrap to 0 |
| RcCascade.RcHeap.Drop | alloc/src/rc.rs:2468-2475 | always returns; does exactly what the relation `Drops` says, or aborts where that says so, which without destructor code is never; keeps all counts exact; a value whose destructor is running keeps its memory, its remaining fields and its code; the last handle leaves its value gone, and recorded before all it brought down |
| RcCascade.RcHeap.Destroy | alloc/src/rc.rs:387-398 | performs every act of the destructor's code in order, drops every field in order, then gives up the owners' weak reference: exactly the relation `Destroys`, as one terminating recursive cascade that keeps all counts exact and leaves the value gone |
| RcCascade.RcHeap.Perform | alloc/src/rc.rs:387-398 | one act of a destructor: upgrading a `Weak` field gives one more `Rc` exactly if its value is alive, a clone gives that handle, dropping another handle takes it away and, if it was the last, destroys its value |
| RcSemantics.DropsOne | alloc/src/rc.rs:2468-2475 | a drop can come to one end only: the relation leaves nothing open |
| RcSemantics.DropsOrAborts | alloc/src/rc.rs:3735-3755 | a drop that comes to its end does not abort, so the two are told apart by the heap it starts from |
| RcSemantics.KeepsAreGifts | alloc/src/rc.rs:387-398 | a destructor that drops no handle of others leaves the program exactly one more handle for every upgrade of a live field and every clone, in order, destroys nothing, and changes no value |
| RcSemantics.DestructorReaches | alloc/src/rc.rs:387-398 | a value whose destructor drops the program's only other handle takes that one's value with it: both are destroyed, in this order, and both freed |
| RcCascade.RcHeap.DropRoot | alloc/src/rc.rs:2468-2475 | without cycles destroys exactly the values the handles left do not reach; never one they reach, never one on a cycle; does exactly what the relation `Drops` says, and never aborts where no destructor has code of its own |
| RcCascade.RcHeap.Upgrade | alloc/src/rc.rs:3517-3530 | succeeds exactly while the value is owned by `Rc`s, so never once its destructor has started nor before construction ends, and then counts one more; aborts exactly when the count is at its maximum |
| RcCascade.RcHeap.GetMut | alloc/src/rc.rs:1887-1919 | true exactly when no other handle to the allocation exists anywhere, in the program or in any value |
| RcCascade.RcHeap.TryUnwrap | alloc/src/rc.rs:1047-1065 | moves the value out, undestroyed, exactly when the handle is the only owner; the memory then stays exactly if `Weak`s are left |
| RcCascade.RcHeap.MakeMut | alloc/src/rc.rs:2065-2107 | aborts exactly when a count has no room for the clones; otherwise leaves the only handle to an equal value, every other handle as it was, and the handle replaced dropped: in place exactly if it was the only one, moved out from under `Weak`s (whose memory stays and which no longer upgrade), or cloned with the old value kept by its other owners and counted once less |
| RcCascade.RcHeap.New | alloc/src/rc.rs:413-424 | a fresh allocation with both counts at 1, its value made of handles the program gives up |
| RcCascade.RcHeap.Clone | alloc/src/rc.rs:2494-2499 | aborts exactly when the count is at its maximum; otherwise one more handle of the same kind, that count one higher, nothing destroyed |
| RcCascade.RcHeap.Downgrade | alloc/src/rc.rs:1753-1761 | aborts exactly when the weak count is at its maximum; otherwise one more `Weak`, from an `Rc` or a `UniqueRc` |
| RcCascade.RcHeap.NewUnique | alloc/src/rc.rs:4302-4314 | a value with strong count 0 that is nevertheless owned, and not upgradable |
| RcCascade.RcHeap.BeginCyclic | alloc/src/rc.rs:863-880 | an allocation without value, kept by the lent `Weak`, not upgradable |
| RcCascade.RcHeap.EndCyclic | alloc/src/rc.rs:888-905 | the result of the closure becomes the value and the lent `Weak` the owners' own |
| RcCascade.RcHeap.UnwindCyclic | alloc/src/rc.rs:863-880 | if the closure panics, the memory is freed unless a `Weak` made meanwhile keeps it; nothing else changes |
| RcCascade.RcHeap.IntoRc | alloc/src/rc.rs:4326-4342 | turns the one `UniqueRc` into the one `Rc` |
| RcReach.OwnedIffReachable | alloc/src/rc.rs:2468-2475 | without cycles the values that exist are exactly those reachable from the program's handles |
| RcReach.ReachableIsOwned | alloc/src/rc.rs:2440-2448 | a reachable value has not been destroyed |
| RcReach.CyclesSurvive | alloc/src/rc.rs:30-33 | a value on a cycle of owning handles is never destroyed |
| RcReach.DestroyedAfterOwners | alloc/src/rc.rs:387-398 | every value that leads to a destroyed one was destroyed before it |
| RcReach.CascadeIsExact | alloc/src/rc.rs:2468-2475 | what a finished cascade spares and destroys, in terms of reachability before it |
| RcReach.NothingLeaks | alloc/src/rc.rs:3649-3660 | with no handle left and no cycle left behind, all memory has been freed |
| Utf8.DecodeEncodeChar | alloc/src/string.rs:1416-1426 | decoding by byte ranges reads back what arithmetic encoding wrote, whatever follows |
| Utf8.EncodeDecodeChar | alloc/src/string.rs:1665-1671 | what decodes is exactly an encoding: no overlong form, no surrogate, nothing above U+10FFFF |
| Utf8.ValidIffEncoding | alloc/src/string.rs:1665-1671 | a byte string is well-formed exactly when it encodes characters, and then only those |
| Utf8.BoundaryIffBetween | alloc/src/string.rs:1726-1727 | on a well-formed string the one-byte boundary test finds exactly the places between characters |
| StringBuffer.RetainStep | alloc/src/string.rs:1661-1690 | one turn of `retain` keeps: kept prefix complete and well-formed, bytes from `idx` on untouched, without any room between the two being assumed |
| StringBuffer.KeptInOrder | alloc/src/string.rs:1644-1695 | the characters kept are exactly those the predicate keeps, each once, in their order |
| StringEdit.Text.Retain | alloc/src/string.rs:1644-1695 | the string becomes the characters kept; if the predicate panics, those kept before, so it is well-formed in every case |
| StringEdit.RoomMayBeTooSmall | alloc/src/string.rs:1676-1681 | the number of deleted bytes can be smaller than the character written back |
| StringEdit.Text.Push | alloc/src/string.rs:1416-1426 | appends one character |
| StringEdit.Text.Pop | alloc/src/string.rs:1497-1504 | removes and returns the last character, or `None` on the empty string |
| StringEdit.Text.Insert | alloc/src/string.rs:1726-1754 | panics exactly off a boundary; otherwise puts the character between the two there |
| StringEdit.Text.Remove | alloc/src/string.rs:1530-1543 | panics exactly at the end or inside a character; otherwise removes and returns the one there |
| StringEdit.Text.RemoveMatches | alloc/src/string.rs:1567-1614 | the overlapping copies leave the string with every match replaced by nothing, well-formed |
| StringBuffer.ReplacedAllValid | alloc/src/str.rs:285-293 | replacing matches between characters by a string gives a string |
| StrReplace.ReplaceAsciiIsReplace | alloc/src/str.rs:709-713 | mapping bytes replaces every occurrence of an ASCII character, as the general path would |
| StrReplace.Replace | alloc/src/str.rs:268-294 | both paths give the string with every match replaced, well-formed: the parts not matched, joined with the replacement between any two, of the length that makes; with nothing for a replacement, what `remove_matches` leaves |
| StrReplace.ReplaceIsJoin | alloc/src/str.rs:285-293 | for any matches, empty ones included, replacing is joining the parts not matched with the replacement, and its length is the string's less the matched bytes plus one replacement for each match |
| StrReplace.ReplacedBySame | alloc/src/str.rs:268-294 | replacing every match by what was matched changes nothing |
| StrJoin.JoinLength | alloc/src/str.rs:144-154 | the length computed beforehand is the length of the join |
| StrJoin.JoinAt | alloc/src/str.rs:112-119 | every piece stands in the join behind the pieces and separators before it, a separator right in front of all but the first |
| StrJoin.ReservedLen | alloc/src/str.rs:147-154 | the checked computation fails exactly when the total exceeds `usize::MAX` |
| StrJoin.CopySliceAndAdvance | alloc/src/str.rs:112-119 | fails exactly when the piece does not fit, and writes nothing outside its place |
| StrJoin.JoinGenericCopy | alloc/src/str.rs:130-186 | gives the join of the pieces as copied, with exactly the initialised elements counted; fails exactly when the reservation overflows, when the first piece exceeds it, or when the join does |
| StrJoin.FirstMayExceed | alloc/src/str.rs:155-166 | a piece measured at length 0 and copied at length 1 exceeds the reservation |
| StrJoin.JoinPieces | alloc/src/str.rs:130-186 | pieces measured as copied: the join fills one allocation of exactly its length |
| StrLowercase.ConvertWhileAscii | alloc/src/str.rs:634-703 | converts exactly the longest ASCII prefix, whatever the chunks |
| StrLowercase.MapUppercaseSigma | alloc/src/str.rs:411-418 | judges the sigma at a byte position in the context of the whole original string |
| StrLowercase.ToLowercase | alloc/src/str.rs:380-409 | equals mapping every character of the original string in its own context; the offset of each sigma is its own place in the input; the result is the one by section 3.13 exactly when the two readings agree at every sigma |
| StrLowercase.ContextReadings | alloc/src/str.rs:420-425 | the code's test agrees with the standard's regular expression except when a character both cased and case-ignorable decides |
| StrLowercase.WordFinalIsFinalSigma | alloc/src/str.rs:411-418 | exactly when a sigma is final for the code if and only if it is by section 3.13: when no neighbour that is both cased and case-ignorable decides |
| StrLowercase.LowercaseIsStandard | alloc/src/str.rs:380-409 | lowering a string as the code does and as section 3.13 does come out equal if and only if the readings agree at every sigma |
| StrLowercase.ReadingsDiffer | alloc/src/str.rs:411-418 | under every table that has U+02B0 both cased and case-ignorable, a string on which the two readings differ |
| StrLowercase.SigmaBytes | alloc/src/str.rs:411-418 | the bytes CE A3 become CF 82 at the end of a word and CF 83 elsewhere |
| StrLowercase.ExpandPads | alloc/src/str.rs:396-406 | what is pushed for a table entry is the entry without its padding |
| StrLowercase.LoweredTwice | alloc/src/str.rs:380-409 | where the table gives only characters it maps to themselves, lowering twice is lowering once |
| StringLossy.BadLenIsMaximal | alloc/src/string.rs:619-645 | the ill-formed piece replaced is the longest front that a well-formed sequence could start with, or one byte |
| StringLossy.IllFormedFront | alloc/src/string.rs:619-645 | an ill-formed front comes out as the bytes EF BF BD, followed by what the rest comes out as |
| StringLossy.LossyIsIdentity | alloc/src/string.rs:619-630 | well-formed input comes out unchanged |
| StringLossy.ChunksAreLossy | alloc/src/string.rs:635-644 | the chunks put together are the lossy decoding, one character or replacement at a time |
| StringLossy.FromUtf8Lossy | alloc/src/string.rs:619-645 | the result is the lossy decoding, well-formed; the input itself is returned exactly when it was well-formed |
| StringLossy.IntoUtf8Lossy | alloc/src/string.rs:2250-2276 | the same string as `from_utf8_lossy`, for every ill-formed input |

## Left out

- ArcCode.Shared.Upgrade: the compare-exchange loop runs for a given number of tries, because nothing bounds how often other threads make it fail; the state machine has no such bound.
- ArcCode.Shared.Downgrade: likewise for spinning while `weak` is locked and for failing exchanges.
- ArcCode.Shared.MakeMut: the new allocation is another instance of the model; that its data equals the old is proved for `Rc` (`RcCascade.RcHeap.MakeMut`), where values are modelled.
- The clones of `Arc` and `Weak`, `into_arc`, the drop of a `UniqueArc` and the steps of `new_cyclic` are labels of the state machine with no method of their own in `ArcCode`: each is one atomic operation, with what follows it (the abort of a clone over the limit, the end of a drop) as further labels.
- The `&Weak` lent by `new_cyclic`: `upgrade` and `weak_count` through it are not steps of their own; they read `strong` and `weak` and, with `strong` at 0, give nothing, which `PeekStrong` and `PeekWeak` stand for.
- StrJoin.JoinGenericCopy: what the source does after a first piece longer than the reservation is not followed beyond reporting it.
- The copies of the joining loop for separators of length 0 to 4 (`alloc/src/str.rs:81-109`) differ only in a constant length and are one loop here.
- Repeat.Repeat: `Vec::with_capacity` can also fail beyond `isize::MAX` bytes or for want of memory.
- Memory orders weaker than the ones the code uses, consume ordering and load buffering are outside the view-based model; sequentially consistent fences do not occur.
- More than one `Arc` allocation at a time, unsized values, allocators, pinning, raw-pointer conversions and the static empty slice.
- Destructors that put a handle into another value (through a `RefCell`) or allocate: those of the model upgrade, clone and drop handles.
- Panics of destructors: fields are dropped and memory is released as without a panic.
- `core`: the unstable sort, UTF-8 chunking, substring search and the Unicode case tables are taken as functions with the contracts the callers rely on.
- `to_vec` for trivially cloneable types, in-place `map`, formatting, `Cow` and string conversions add only easy members.
