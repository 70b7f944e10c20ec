# Proofs about the core of the proxy engine

This project models the parts of the engine's Go code whose correctness rests on invariants
rather than on reading one branch, and proves what they promise. `dafny verify dfyconfig.toml`
checks all of it. Each algorithm is modelled twice where that helps: once in the form of the
code — classes whose methods change their fields, loops over arrays — and once as a
specification on values, about which the properties are proved; the methods' `ensures` tie the
two together.

| files | what they model |
|---|---|
| `XsyncSwar`, `XsyncChain`, `XsyncTable`, `XsyncMap` | the hash table `xsync.Map` as a sequential class: byte-parallel search of meta words, chained buckets, striped counters, growing, shrinking, clearing. For any hash function and any seeds it acts on a finite map |
| `XsyncResize`, `XsyncClear` | the lock and flag protocol of the same table as interleaved steps of any number of threads; what a Clear overtakes, and when it empties the map |
| `XsyncHistory`, `XsyncLinear`, `XsyncLost` | the same with lock-free readers and calls of Clear, and the history of their answers; a Clear that is in no history |
| `XsyncReader` | the lock-free search of one chain, slot by slot, beside the single stores of a writer |
| `ArcSpec`, `ArcPolicy`, `Arc` | the adaptive replacement cache: a state machine in which a step that would crash is `None`; what it keeps and gives up over whole runs; and the class with its four lists of entries, which refines it |
| `LruSpec`, `LruRuns`, `Lru` | the least-recently-used cache, likewise, with ages and a limit of its size |
| `FakeIpSpec`, `FakeIpRuns`, `FakeIp` | the fake-IP store, two such caches that mirror each other, and the cyclic allocator on top; how long a host keeps its address |
| `DagSpec`, `DagSort` | the dependency sort of proxy groups, and the pass that names the loops |
| `SubRules` | the check of references between sub-rules |
| `Murmur3`, `WebSocketMask` | streaming against one-shot hashing, unrolled against octet-wise masking |
| `IntRanges`, `RangeText`, `RangeGrammar` | merging integer ranges in place, enumerating, printing and parsing them, and what their text means |
| `LoadBalance` | jump hashing, consistent hashing with retries, round-robin |
| `SingleFlight`, `SingleFlightRuns` | sharing of calls by key as interleaved steps; whose value is handed out |
| `Options`, `Arithmetic`, `Pigeonhole` | `Option` and `Result`; uniqueness of quotients and remainders; the pigeonhole principle |

Main results, hardest first:

- `xsync.Map` is linearizable except for those Clears that meet a resize and return without a
  Clear having been published while they waited: in every interleaving of writers, resizers,
  lock-free readers and calls of Clear, all answers and all other Clears are those of a plain map,
  each at a moment of its call (`XsyncLinear.Linearizable`, `EachAnswerOnce`,
  `ClearTakesEffect`, `ClearIsServedOrLost`); and the exception is a real one
  (`XsyncLost.ClearIsNotInHistory`, `NothingAfterClear`). A reader's search of a chain is one step
  there.
- Taken apart into its loads, beside a writer taken apart into its stores, that search still
  answers what the map held for the key at some moment of the search
  (`XsyncReader.SearchAnswersHeld`).
- In every interleaving of writers with a resize, no bucket is written after it was copied, the
  table published holds exactly what the old one held, and the current table always holds the
  writes that reached it, none lost, none applied twice (`XsyncResize.ReachableInv`,
  `PublishIsExact`, `NoUpdateLost`, `QuiescentCount`).
- Run sequentially, every operation of the same map refines a finite map, for any hash
  (`XsyncMap.Map`).
- The adaptive cache never takes the back of an empty list and never divides by zero, for every
  run, exactly when its capacity is not zero; and a hit is always the latest value set
  (`ArcSpec.CrashesOnlyAtZero`, `RunOk`, `CacheIsSound`). Over every run it gives up the entry used
  longest ago of the list that its target says, moves the target only for ghosts, and keeps what
  was hit before through scans of any length (`ArcPolicy.GivesUpOldest`, `TargetMoves`,
  `ScanLeavesT2`, `HotKeySurvives`).
- Over every run with a clock, the least-recently-used cache answers exactly what was last set, for
  as long as ages and size allow (`LruRuns.GetAnswers`, `AnswersUntilTooOld`, `AnswersSinceHit`,
  `AlwaysAnswers`).
- After every run of a memory-backed fake-IP pool the two caches are exact inverses in the same
  recency order, and addresses go round in a full cycle (`FakeIpSpec.RunOk`, `ExactInverses`,
  `AllocationOrder`, `ReuseAfterFullCycle`, `LookBackOfLookup`); a host keeps its address until
  too many others were used or the cycle comes round (`FakeIpRuns.StaysWithHost`).
- The group sort succeeds exactly on acyclic graphs, with a permutation in dependency order, and
  otherwise names all groups on cycles (`DagSort.ProxyGroupsDagSort`).
- In every interleaving of shared calls, everyone who waits gets, once, what the function of a call
  of their own key returned, and never one from before the key was forgotten
  (`SingleFlight.OneAnswerPerChannel`, `FinishNeverBlocks`, `SingleFlightRuns.ChanGetsReturned`,
  `ForgottenIsNotJoined`).
- `SubRules.VerifySubRule`, `Murmur3.Digest32.Sum32`, `WebSocketMask.MaskWebSocket`,
  `IntRanges.Merge`, `RangeText.ReadsBack`, `RangeGrammar.NewUnsignedRanges`,
  `LoadBalance.Consistent`, `JumpIsBalanced` and `EachLiveOnce` are the others.

Where the code and what is said of it differ, the model follows the code:

- The comment on `Compute` (map.go:358-360) promises the zero value when no entry is present
  afterwards. After a deletion the code answers the value deleted (map.go:486); for a missing key
  that is not stored it answers the callback's value when the chain of the key is full
  (map.go:549). `XsyncMap.PromisedExactly` says when the promise is kept, for both kinds of keys,
  and `DeletionBreaksPromise` and `FullChainBreaksPromise` give calls that break it, the latter
  for every hash function.
- A writer of `xsync.Map` that has passed both checks may still be overtaken by a Clear, which
  copies no buckets and so takes no locks; its write then goes to the table that was cleared
  away. `XsyncClear.WriteIsOvertaken` is such a run, `WriteReachesMap` the exact condition. The
  map stays linearizable: the write takes effect just before the Clear.
- A Clear that meets a resize under way waits for it to end and then does nothing itself
  (map.go:596-600). From its look at the flag to the end of the resize it starts or meets, the map
  is emptied if and only if the flag was down, or the resize it met was a Clear that had not
  published its table yet (`XsyncClear.ClearEmptiesExactly`); otherwise every entry that nobody
  writes stays (`EntryStays`). `ClearIsLost` is a run in which a key stored before the call is
  still bound when it returns, and `XsyncLost.ClearIsNotInHistory` adds a Load that begins after
  that and finds it.
- The adaptive cache made with capacity zero, or without a size, crashes on its first Set
  (`ArcSpec.CrashesOnlyAtZero`, `RunsUnlessZero`); with a negative one it never evicts
  (`NegativeRun`), and the last case of req, which no other capacity reaches, is the one a new
  key takes (`LastCaseIsNegative`).
- Reading ranges cuts a number that is too large for the type down without an error
  (`RangeText.ParseCutsDown`), and printing turns numbers from 2^63 on negative, so that they do
  not read back (`RangeText.ReadsBack`, `RangeGrammar.PrintedMeansTheSame`).
- Round-robin and consistent hashing take the first of their proxies without a check, and would
  crash on an empty list (`LoadBalance.RoundRobin.Pick`, `ConsistentHashing`). Their callers never
  pass one: `GetProxies` puts COMPATIBLE in place of an empty list
  (adapter/outboundgroup/groupbase.go:207-208), and a group with neither proxies nor providers is
  refused (adapter/outboundgroup/parser.go:106-108).

## Model

| member | source | states |
|---|---|---|
| `XsyncResize.StepKeepsInv` | core/src/main/golang/clash/common/xsync/map.go:443-456 | every step of every thread — any number of writers, one resizer, in any order — keeps the invariant: a bucket a writer may still write has not been copied, the private copy holds exactly the finished buckets, and the counter with what is still owed to it is the entry count |
| `XsyncResize.InitInv` | core/src/main/golang/clash/common/xsync/map.go:192-200 | the invariant holds of a new map |
| `XsyncResize.ReachableInv` | core/src/main/golang/clash/common/xsync/map.go:392-641 | the invariant holds after every interleaved run |
| `XsyncResize.PublishIsExact` | core/src/main/golang/clash/common/xsync/map.go:628-641 | at the moment of publishing, the new table holds exactly the entries of the current one (none after a Clear), and its counter is their number |
| `XsyncResize.WriteIsNotLost` | core/src/main/golang/clash/common/xsync/map.go:443-456 | a writer past both checks writes to the current table, and to a bucket the resizer has yet to copy |
| `XsyncResize.RetiredIsFrozen` | core/src/main/golang/clash/common/xsync/map.go:636-640 | no step of any thread changes the entries of a table that a grow or shrink replaced |
| `XsyncResize.NoUpdateLost` | core/src/main/golang/clash/common/xsync/map.go:392-641 | over every run, Clears included, the current table holds the fold of the writes that went to the table current at their moment, in the order they took effect, a published Clear emptying it: none of these lost, none applied twice |
| `XsyncResize.EveryWriteCounts` | core/src/main/golang/clash/common/xsync/map.go:443-456 | over a run without a Clear, those are all the writes |
| `XsyncClear.WriteReachesMap` | core/src/main/golang/clash/common/xsync/map.go:443-456 | a write that passed its check of the table reaches the map if and only if no Clear publishes its table between the check and the write; otherwise it leaves the map as it is |
| `XsyncClear.WriteIsOvertaken` | core/src/main/golang/clash/common/xsync/map.go:628-640 | a run from a new map in which thread 0 passes both checks, thread 1 clears and thread 0 writes: the entry ends in the table cleared away |
| `XsyncClear.OvertakenWhileChecked` | core/src/main/golang/clash/common/xsync/map.go:628-640 | while a writer rests behind its checks, its table is overtaken exactly if a Clear publishes |
| `XsyncClear.ClearEmptiesExactly` | core/src/main/golang/clash/common/xsync/map.go:585-641 | in every interleaving, from its look at the flag to the first moment the flag is lowered, a Clear empties the map if and only if the flag was down or the resize it meets is a Clear that has not published its table yet |
| `XsyncClear.ClearsIfPending` | core/src/main/golang/clash/common/xsync/map.go:596-641 | whatever other threads do, a resize publishes an empty table before it ends if and only if it is a Clear that has not published yet |
| `XsyncClear.ClearedIsEmpty` | core/src/main/golang/clash/common/xsync/map.go:623-636 | a run that clears the map passes a moment at which it has no entries |
| `XsyncClear.EntryStays` | core/src/main/golang/clash/common/xsync/map.go:629-641 | over a run that does not clear the map, every key that no step writes keeps what it is bound to |
| `XsyncClear.ClearIsLost` | core/src/main/golang/clash/common/xsync/map.go:596-600 | a run in which a key is stored, a Clear meets a resize that grows the table, and when that resize has ended and the Clear returns, with no resize under way, the key is still bound |
| `XsyncLinear.Linearizable` | core/src/main/golang/clash/common/xsync/map.go:240-641 | every run of any number of writers, resizers, lock-free readers and calls of Clear has a history of a plain map: each answer is that of the map its predecessors leave, takes effect between the first and the last step of its call, and stands before those of calls that begin after it ended; the history ends with what the current table holds |
| `XsyncLinear.EachAnswerOnce` | core/src/main/golang/clash/common/xsync/map.go:240-641 | each write, cancelled call, load and publication, and each return of a Clear that waited while another was published, adds exactly one entry to the history, and changes none |
| `XsyncLinear.NothingElseRecorded` | core/src/main/golang/clash/common/xsync/map.go:392-641 | no other step adds to the history |
| `XsyncLinear.ClearTakesEffect` | core/src/main/golang/clash/common/xsync/map.go:585-641 | a call of Clear that finds the flag down, or meets a Clear that has not published its table yet, has an emptying of its own in the history when it returns, whatever happens in between |
| `XsyncLinear.ClearIsServedOrLost` | core/src/main/golang/clash/common/xsync/map.go:596-600 | a call of Clear that meets a resize is put into the history when it returns if and only if a Clear was published while it waited |
| `XsyncLinear.NextKeeps` | core/src/main/golang/clash/common/xsync/map.go:240-641 | every step of a writer, a resizer, a reader or a call of Clear keeps the invariant of the history and the calls under way |
| `XsyncLinear.CallClearKeeps` | core/src/main/golang/clash/common/xsync/map.go:596-600 | so does the look of a Clear at the flag, which starts a resize or a wait |
| `XsyncLinear.ReturnKeeps` | core/src/main/golang/clash/common/xsync/map.go:577-583 | so does its return, which puts a Clear that was served by another just behind that one |
| `XsyncLinear.PlayedOk` | core/src/main/golang/clash/common/xsync/map.go:240-641 | the invariant holds after every run |
| `XsyncLinear.RecordKeeps` | core/src/main/golang/clash/common/xsync/map.go:240-266 | an answer from a table already replaced can be put just before its replacement, whether that was a copy or a Clear |
| `XsyncLinear.PublishHistory` | core/src/main/golang/clash/common/xsync/map.go:635-636 | a publication keeps the history that of a plain map: a Clear empties it, a copy changes nothing |
| `XsyncHistory.LegalInserted` | core/src/main/golang/clash/common/xsync/map.go:240-266 | an event that makes no difference to what stands behind it can be inserted into a history |
| `XsyncHistory.ServedHistory` | core/src/main/golang/clash/common/xsync/map.go:577-600 | an emptying just behind the publication of a Clear keeps the history that of a plain map, in order, and leaves the same map |
| `XsyncHistory.ServedBefore` | core/src/main/golang/clash/common/xsync/map.go:577-600 | and it changes no map that a table replaced stands for |
| `XsyncLost.ClearIsNotInHistory` | core/src/main/golang/clash/common/xsync/map.go:596-600 | a run in which a Clear is called after all writes were answered and returns before a Load begins, and the Load finds the key |
| `XsyncLost.NothingAfterClear` | core/src/main/golang/clash/common/xsync/map.go:719-722 | in no history of a plain map, with calls in real-time order, does a Load behind a Clear that came after all writes find anything |
| `XsyncReader.SearchAnswersHeld` | core/src/main/golang/clash/common/xsync/map.go:240-266 | however the loads of a search fall between the stores of updates, deletions, insertions and new buckets, its answer is what the map held for the key after one of the steps since the search began |
| `XsyncReader.SearchGoesOn` | core/src/main/golang/clash/common/xsync/map.go:247-265 | a search that has not answered can always go on: the slot it looks at next exists |
| `XsyncReader.StepReader` | core/src/main/golang/clash/common/xsync/map.go:247-265 | every single load or store keeps the invariant of the search: the key was missing at some moment, or stands in a slot ahead |
| `XsyncReader.StepChain` | core/src/main/golang/clash/common/xsync/map.go:471-562 | every single store keeps the chain one that stores its map; half way through a change, the chain before it did |
| `XsyncReader.LiveIs` | core/src/main/golang/clash/common/xsync/map.go:474-478 | a slot that holds the key and is not being emptied has the tag of the key, and the map has its value, half-done changes of other slots included |
| `XsyncReader.KeyIsLive` | core/src/main/golang/clash/common/xsync/map.go:487-491 | a key the map has stands in such a slot |
| `XsyncReader.LeavingWasHeld` | core/src/main/golang/clash/common/xsync/map.go:474-478 | the entry that a deletion has yet to remove was bound to its key when the deletion began |
| `XsyncResize.QuiescentCount` | core/src/main/golang/clash/common/xsync/map.go:751-767 | whenever no thread owes the counter anything, it is the number of entries |
| `XsyncResize.TotalOwedUpdate` | core/src/main/golang/clash/common/xsync/map.go:751-754 | what all threads owe the counter changes by what the moving thread owes |
| `XsyncSwar.SetByteWritesOne` | core/src/main/golang/clash/common/xsync/map.go:923-926 | setByte writes one byte of a word and keeps the other seven |
| `XsyncSwar.BytesDetermineWord` | core/src/main/golang/clash/common/xsync/map.go:923-926 | eight equal bytes make equal words |
| `XsyncSwar.MatchMaskComplete` | core/src/main/golang/clash/common/xsync/map.go:249-250 | the byte-parallel search marks every slot whose tag is the one looked for |
| `XsyncSwar.MatchMaskShape` | core/src/main/golang/clash/common/xsync/map.go:249-250 | only the top bits of the five slot bytes can be marked |
| `XsyncSwar.FirstCandidateIsExact` | core/src/main/golang/clash/common/xsync/map.go:249-250 | the lowest slot the search marks does hold the tag: false positives come only above a true match |
| `XsyncSwar.SearchWordIsExact` | core/src/main/golang/clash/common/xsync/map.go:249-250 | the search finds a candidate if and only if some slot holds the tag |
| `XsyncSwar.FirstMarkedIsLowest` | core/src/main/golang/clash/common/xsync/map.go:913-915 | counting trailing zeros finds the lowest marked byte |
| `XsyncSwar.ClearLowestMark` | core/src/main/golang/clash/common/xsync/map.go:259 | clearing the lowest set bit forgets that mark and no other, and the word gets smaller, so the search ends |
| `XsyncSwar.EmptyIsNotMarked` | core/src/main/golang/clash/common/xsync/map.go:249-250 | the search never marks a slot whose meta byte is 0x80, that of an empty slot |
| `XsyncSwar.EmptyMaskExact` | core/src/main/golang/clash/common/xsync/map.go:506-513 | the mask of free slots marks a slot exactly when its meta byte is 0x80 |
| `XsyncSwar.BitAndIsRemainder` | core/src/main/golang/clash/common/xsync/map.go:245-246 | for a power-of-two length, masking a number is taking its remainder |
| `XsyncMap.DoubledPower` | core/src/main/golang/clash/common/xsync/map.go:608-614 | lengths reached by doubling a power of two are powers of two |
| `XsyncMap.Map.IndexIsRemainder` | core/src/main/golang/clash/common/xsync/map.go:245-246 | so, with a minimal length that is one, the chain of a key is the remainder of its hash, through all growing and shrinking |
| `XsyncChain.UpdateKeepsOk` | core/src/main/golang/clash/common/xsync/map.go:487-491 | replacing the entry of a key leaves a chain that stores the map with that key updated |
| `XsyncChain.DeleteKeepsOk` | core/src/main/golang/clash/common/xsync/map.go:474-482 | emptying a slot leaves a chain that stores the map without that key |
| `XsyncChain.InsertKeepsOk` | core/src/main/golang/clash/common/xsync/map.go:515-533 | filling a free slot leaves a chain that stores the map with one key more |
| `XsyncChain.AppendKeepsOk` | core/src/main/golang/clash/common/xsync/map.go:551-561 | linking a new bucket leaves a chain that stores the map with one key more |
| `XsyncChain.OtherChainKeepsOk` | core/src/main/golang/clash/common/xsync/map.go:411-412 | a change to a key does not concern the other chains |
| `XsyncChain.FindSlot` | core/src/main/golang/clash/common/xsync/map.go:249-260 | the search of one bucket finds the key if the bucket has it, whatever the hash and the false positives |
| `XsyncChain.FirstFree` | core/src/main/golang/clash/common/xsync/map.go:506-513 | the first free slot is found, if there is one |
| `XsyncChain.FindInChain` | core/src/main/golang/clash/common/xsync/map.go:247-265 | the search of a chain answers yes exactly when the chain holds the key |
| `XsyncChain.ScanChain` | core/src/main/golang/clash/common/xsync/map.go:457-565 | the search under the lock finds the key exactly when it is there, and otherwise the first free slot, or that the chain is full |
| `XsyncTable.SumUpdate` | core/src/main/golang/clash/common/xsync/map.go:761-767 | changing one stripe changes the sum of the stripes by as much |
| `XsyncTable.MapTable.constructor` | core/src/main/golang/clash/common/xsync/map.go:202-220 | a new table is empty and valid, with between 8 and 32 counter stripes |
| `XsyncTable.MapTable.Load` | core/src/main/golang/clash/common/xsync/map.go:240-266 | loading answers what the finite map holds |
| `XsyncTable.MapTable.Scan` | core/src/main/golang/clash/common/xsync/map.go:457-514 | the traversal finds the slot of a key of the map; otherwise the first free slot of its chain, or that there is none |
| `XsyncTable.MapTable.AddSize` | core/src/main/golang/clash/common/xsync/map.go:751-759 | one stripe changes by delta and no other, and so does the sum |
| `XsyncTable.MapTable.SumSize` | core/src/main/golang/clash/common/xsync/map.go:761-767 | the loop over the stripes gives their sum |
| `XsyncTable.MapTable.Update` | core/src/main/golang/clash/common/xsync/map.go:487-491 | the table stores the map with the key updated, the count unchanged |
| `XsyncTable.MapTable.Delete` | core/src/main/golang/clash/common/xsync/map.go:474-482 | the table stores the map without the key, and the meta word equals the default exactly when the bucket is left empty |
| `XsyncTable.MapTable.Insert` | core/src/main/golang/clash/common/xsync/map.go:529-530 | the table stores the map with one key more, in the slot given and nowhere else |
| `XsyncTable.MapTable.Append` | core/src/main/golang/clash/common/xsync/map.go:551-558 | the same through a new bucket at the end of the chain, the rest of the table untouched |
| `XsyncTable.MapTable.AppendToBucket` | core/src/main/golang/clash/common/xsync/map.go:730-749 | an entry of another table goes into the first free slot of its chain, or into a new bucket when there is none; no other chain changes, and the table stores one key more |
| `XsyncTable.MapTable.CopyStep` | core/src/main/golang/clash/common/xsync/map.go:650-658 | what is to be copied next has not been copied before |
| `XsyncTable.MapTable.CopyBucket` | core/src/main/golang/clash/common/xsync/map.go:643-666 | after a chain, the destination holds exactly the entries of the chains copied so far, and the count returned is what it grew by |
| `XsyncTable.MapTable.CopiedChain` | core/src/main/golang/clash/common/xsync/map.go:629-634 | after the last chain the destination holds the whole map |
| `XsyncMap.DoubledAtLeast` | core/src/main/golang/clash/common/xsync/map.go:608-614 | a length reached from the minimum by doubling is never below it, nor is its half if it is larger |
| `XsyncMap.PromisedExactly` | core/src/main/golang/clash/common/xsync/map.go:356-360 | Compute answers what its comment promises if and only if: for a key that is present, it does not delete, or deletes the zero value; for one that is missing, it stores, or its chain has a free slot, or the callback gives zero |
| `XsyncMap.PresentComputes` | core/src/main/golang/clash/common/xsync/map.go:471-501 | for a key that is present the callback is given its value and true; an update binds what it returns, a deletion removes the key, a cancellation changes nothing, and the answer is the new value for Compute when it updates, else the old one |
| `XsyncMap.MissingComputes` | core/src/main/golang/clash/common/xsync/map.go:515-563 | for a missing key it is given zero and false; only an update changes the map, and only then is the flag of Compute set |
| `XsyncMap.LoadComputes` | core/src/main/golang/clash/common/xsync/map.go:414-441 | where the look without the lock answers, map and answer do not depend on the callback |
| `XsyncMap.DeletionBreaksPromise` | core/src/main/golang/clash/common/xsync/map.go:471-486 | the public calls that break it by deleting: a Store and a Compute that deletes |
| `XsyncMap.SixKeys` | core/src/main/golang/clash/common/xsync/map.go:245-246 | for any hash function and any seed, among 161 keys there are six whose chain of 32 is the same |
| `XsyncMap.FullChainBreaksPromise` | core/src/main/golang/clash/common/xsync/map.go:543-549 | the public calls that break it for a missing key, for any hash function: five Stores that fill one chain and a Compute on a sixth key of it that cancels |
| `XsyncMap.Map.constructor` | core/src/main/golang/clash/common/xsync/map.go:177-200 | a new map is the empty map; a minimal length of zero becomes 32 |
| `XsyncMap.Map.Load` | core/src/main/golang/clash/common/xsync/map.go:240-266 | the value of the key, or zero and false |
| `XsyncMap.Map.Size` | core/src/main/golang/clash/common/xsync/map.go:725-728 | the size is the number of entries of the finite map |
| `XsyncMap.Map.Resize` | core/src/main/golang/clash/common/xsync/map.go:585-641 | growing and shrinking keep the map, with any new seed; clearing empties it; growing doubles the length; a table is halved exactly when it is above the minimum and holds at most a 128th of five entries for each chain; the old table is left as it was |
| `XsyncMap.Map.CopyAll` | core/src/main/golang/clash/common/xsync/map.go:629-634 | the new table holds the map of the old, and its counters sum to its size |
| `XsyncMap.Map.DoCompute` | core/src/main/golang/clash/common/xsync/map.go:392-567 | one call transforms the finite map as the callback asks and answers as said, the value for a missing key not stored depending on whether its chain is full; the grow-and-retry loop terminates |
| `XsyncMap.Map.Round` | core/src/main/golang/clash/common/xsync/map.go:397-567 | one round of the loop: the look without the lock answers, or an attempt follows |
| `XsyncMap.Map.LoadFirst` | core/src/main/golang/clash/common/xsync/map.go:414-441 | the look without the lock answers exactly the calls it may answer |
| `XsyncMap.Map.Attempt` | core/src/main/golang/clash/common/xsync/map.go:443-567 | one attempt either does the work, or, exactly when the key is missing, its chain full and the table overfull, doubles the table and changes nothing |
| `XsyncMap.Map.ComputeAbsent` | core/src/main/golang/clash/common/xsync/map.go:515-563 | the branch for a key that is missing: update inserts in the first free slot or a new bucket; delete and cancel change nothing, and answer zero if the chain has a free slot and the callback's value if it is full |
| `XsyncMap.Map.ComputePresent` | core/src/main/golang/clash/common/xsync/map.go:471-501 | the branch for a key that is present: the callback sees its value, and an update binds, a deletion removes and maybe shrinks, anything else leaves the map |
| `XsyncMap.Map.Store` | core/src/main/golang/clash/common/xsync/map.go:269-278 | the map with the key bound to the value |
| `XsyncMap.Map.LoadOrStore` | core/src/main/golang/clash/common/xsync/map.go:283-295 | stores only if the key was missing; the answer is the value bound afterwards |
| `XsyncMap.Map.LoadAndStore` | core/src/main/golang/clash/common/xsync/map.go:302-311 | always stores; the answer is the old value if there was one |
| `XsyncMap.Map.LoadAndDelete` | core/src/main/golang/clash/common/xsync/map.go:376-385 | removes the key; the answer is the value it had |
| `XsyncMap.Map.LoadOrCompute` | core/src/main/golang/clash/common/xsync/map.go:325-344 | computes only if the key was missing, and stores unless cancelled |
| `XsyncMap.Map.Compute` | core/src/main/golang/clash/common/xsync/map.go:366-371 | the callback is given the value and true, or zero and false; the map is changed as it says, the answer is the value bound afterwards, after a deletion the value deleted, and for a key missing before and after it zero or, when its chain is full, the value of the callback; ok is presence afterwards |
| `XsyncMap.Map.ClearAll` | core/src/main/golang/clash/common/xsync/map.go:719-722 | the empty map, at the minimal length |
| `ArcSpec.RunOk` | core/src/main/golang/clash/common/arc/arc.go:80-227 | after every run of Set, Get and Clear with capacity at least 1: nothing crashed, p lies between 0 and c, t1 with t2 and t1 with b1 hold at most c keys, all four at most 2c, they are disjoint and cover exactly the key map, and ghost lists are empty unless t1 and t2 hold c |
| `ArcSpec.SetOk` | core/src/main/golang/clash/common/arc/arc.go:80-98 | one Set never takes the back of an empty list nor divides by zero, keeps the invariant, binds its key, and changes other keys only by making them ghosts or forgetting them |
| `ArcSpec.GetOk` | core/src/main/golang/clash/common/arc/arc.go:113-120 | one Get never crashes, keeps the invariant and the values of all keys not evicted |
| `ArcSpec.ReqOk` | core/src/main/golang/clash/common/arc/arc.go:147-204 | the seven cases of req, from any state between two operations |
| `ArcSpec.ReqB1` | core/src/main/golang/clash/common/arc/arc.go:152-166 | case II: the division is by a non-empty list, p grows within c, and something can be evicted |
| `ArcSpec.ReqB2` | core/src/main/golang/clash/common/arc/arc.go:167-181 | case III: the same with p shrinking within 0 |
| `ArcSpec.ReqNew` | core/src/main/golang/clash/common/arc/arc.go:182-203 | case IV: room is made without taking the back of an empty list |
| `ArcSpec.CacheIsSound` | core/src/main/golang/clash/common/arc/arc.go:100-136 | whenever a Get after any run hits, value and expiry are those of the latest Set of the key since the last Clear |
| `ArcSpec.NegativeRun` | core/src/main/golang/clash/common/arc/arc.go:182-203 | with a negative capacity nothing is ever evicted and nothing crashes |
| `ArcSpec.LastCaseIsNegative` | core/src/main/golang/clash/common/arc/arc.go:200-202 | after every run that does not crash, t1 and b1 are over capacity, which is the last case of req, if and only if the capacity is negative |
| `ArcSpec.ZeroRun` | core/src/main/golang/clash/common/arc/arc.go:184-186 | with capacity zero a run crashes exactly if it holds a Set, and leaves the cache empty otherwise |
| `ArcSpec.RunsUnlessZero` | core/src/main/golang/clash/common/arc/arc.go:147-204 | a run crashes if and only if the capacity is zero and the run holds a Set |
| `ArcSpec.CrashesOnlyAtZero` | core/src/main/golang/clash/common/arc/arc.go:184-186 | no run crashes if and only if the capacity is not zero; at zero the first Set takes the back of an empty list |
| `ArcPolicy.ListsAreOrdered` | core/src/main/golang/clash/common/arc/arc.go:147-227 | after every run, t1 followed by its ghosts and t2 followed by its ghosts are in the order in which their keys were last set or asked for |
| `ArcPolicy.GivesUpOldest` | core/src/main/golang/clash/common/arc/arc.go:182-227 | after every run, an entry is given up only when the cache is full and the key asked for is not in it; it is the one used longest ago of t1 when that is over its target, of t2 when t1 is under it, and at the target of t1 exactly for a ghost of t2; it becomes a ghost, but for an entry of t1 when that fills the cache |
| `ArcPolicy.ForgetsOldest` | core/src/main/golang/clash/common/arc/arc.go:182-204 | a ghost is forgotten only for an unknown key, and it is the one of its list used longest ago: of t1 when t1 and its ghosts reach the capacity, of t2 when all lists reach twice the capacity |
| `ArcPolicy.TargetMoves` | core/src/main/golang/clash/common/arc/arc.go:152-181 | after every run, the target moves only for a ghost: up for one of t1, down for one of t2, by the ratio of the ghost lists rounded down but at least by one, within zero and the capacity |
| `ArcPolicy.ScanLeavesT2` | core/src/main/golang/clash/common/arc/arc.go:182-227 | while the target is zero, a scan of any number of unknown keys, after any run, leaves the entries of t2 where and as they are |
| `ArcPolicy.HotKeySurvives` | core/src/main/golang/clash/common/arc/arc.go:147-227 | in a cache of positive capacity, a key set and asked for once is still a hit after a scan of any length exactly when the capacity is at least two |
| `ArcPolicy.ReplaceOrder` | core/src/main/golang/clash/common/arc/arc.go:213-227 | turning an entry into a ghost keeps the order of its list with its ghosts |
| `ArcPolicy.StepTakes` | core/src/main/golang/clash/common/arc/arc.go:147-204 | what any one operation can give up, from any state between two operations |
| `Arc.Entry.Detach` | core/src/main/golang/clash/common/arc/entry.go:28-32 | the entry is removed from the list it stands in |
| `Arc.Entry.SetMRU` | core/src/main/golang/clash/common/arc/entry.go:22-26 | the entry stands in front of the list, and nowhere else |
| `Arc.MovedLinked` | core/src/main/golang/clash/common/arc/entry.go:22-32 | moving an entry keeps every entry in exactly the list it names |
| `Arc.ForgottenLinked` | core/src/main/golang/clash/common/arc/arc.go:206-211 | forgetting an entry keeps lists and map in agreement |
| `Arc.BackOk` | core/src/main/golang/clash/common/arc/arc.go:207-208 | the back of a list is the last of its keys, and removing it removes that key |
| `Arc.WhereKeyIs` | core/src/main/golang/clash/common/arc/arc.go:148-200 | the list an entry names is the one that holds its key, so the cases of req on entries are the cases on keys |
| `Arc.KeyIsWhereEntryIs` | core/src/main/golang/clash/common/arc/arc.go:148-200 | the same for one list |
| `Arc.PlacedOk` | core/src/main/golang/clash/common/arc/arc.go:151-202 | placing the entry served is moving its key |
| `Arc.ARC.constructor` | core/src/main/golang/clash/common/arc/arc.go:35-56 | a new cache is the empty state |
| `Arc.ARC.Move` | core/src/main/golang/clash/common/arc/entry.go:22-26 | moving an entry between the four lists changes those lists and nothing else |
| `Arc.ARC.Replace` | core/src/main/golang/clash/common/arc/arc.go:213-227 | the entry evicted becomes a ghost in front of the right ghost list, as the state machine says |
| `Arc.ARC.DelLRU` | core/src/main/golang/clash/common/arc/arc.go:206-211 | the back of a list leaves the list and the map |
| `Arc.ARC.ReqB1` | core/src/main/golang/clash/common/arc/arc.go:152-166 | refines case II |
| `Arc.ARC.ReqB2` | core/src/main/golang/clash/common/arc/arc.go:167-181 | refines case III |
| `Arc.ARC.MakeRoomA` | core/src/main/golang/clash/common/arc/arc.go:182-189 | refines case IV A |
| `Arc.ARC.MakeRoomB` | core/src/main/golang/clash/common/arc/arc.go:191-198 | refines case IV B |
| `Arc.ARC.Req` | core/src/main/golang/clash/common/arc/arc.go:147-204 | refines req |
| `Arc.ARC.SetWithExpire` | core/src/main/golang/clash/common/arc/arc.go:80-98 | refines Set, for any capacity, whenever the state machine does not crash |
| `Arc.ARC.Set` | core/src/main/golang/clash/common/arc/arc.go:60-69 | the same with expiry zero |
| `Arc.ARC.GetWithExpire` | core/src/main/golang/clash/common/arc/arc.go:126-136 | refines Get; a hit gives value and expiry of the key, exactly when it is live |
| `Arc.ARC.Get` | core/src/main/golang/clash/common/arc/arc.go:102-111 | the same without the expiry |
| `Arc.ARC.Clear` | core/src/main/golang/clash/common/arc/arc.go:45-56 | back to the empty state, the capacity kept |
| `LruSpec.DeleteOk` | core/src/main/golang/clash/common/lru/lrucache.go:235-239 | exactly the items of other keys remain |
| `LruSpec.DropOldestIsSuffix` | core/src/main/golang/clash/common/lru/lrucache.go:241-248 | what is dropped is an old prefix; the first item left is not old |
| `LruSpec.SetOk` | core/src/main/golang/clash/common/lru/lrucache.go:169-187 | after a Set the items are those of the other keys in their order and then the new one, less a prefix; without ages that prefix is one item exactly when a full cache gets a new key |
| `LruSpec.GetOk` | core/src/main/golang/clash/common/lru/lrucache.go:206-225 | a Get keeps keys distinct and the size bound, and finds the key exactly if it is there and not too old |
| `LruSpec.ValueAfterDelete` | core/src/main/golang/clash/common/lru/lrucache.go:235-239 | no other key changes its value |
| `LruSpec.ValueAfterGet` | core/src/main/golang/clash/common/lru/lrucache.go:206-225 | without ages a Get changes no value |
| `LruSpec.ValueAfterSet` | core/src/main/golang/clash/common/lru/lrucache.go:169-187 | a Set binds its key; any other key keeps its value or is evicted |
| `LruSpec.MostRecentAreKept` | core/src/main/golang/clash/common/lru/lrucache.go:179-183 | over every run of Sets, a cache of size n holds the last n keys an unbounded cache would hold, in the same order |
| `LruRuns.GetAnswers` | core/src/main/golang/clash/common/lru/lrucache.go:160-225 | after every run of Sets, Gets and Deletes with a clock that does not go back, a Get answers only what its key was last set to, and not once that is too old; and it does answer that unless as many other keys as fit into the cache were used since the key was |
| `LruRuns.AnswersUntilTooOld` | core/src/main/golang/clash/common/lru/lrucache.go:150-158 | with an age, a Get answers the value set exactly until the age has passed since, whatever other keys are used, up to the size |
| `LruRuns.AnswersSinceHit` | core/src/main/golang/clash/common/lru/lrucache.go:219-223 | with age renewed on Get, the same counts from the last Get that found the key |
| `LruRuns.AlwaysAnswers` | core/src/main/golang/clash/common/lru/lrucache.go:241-242 | without an age, or with stale items wanted, a Get answers the value set however old it is |
| `LruRuns.SetKeeps` | core/src/main/golang/clash/common/lru/lrucache.go:169-187 | a Set keeps every item what its key is bound to, with the keys used since behind it, and loses none but old ones and one that as many others were used after |
| `LruRuns.HitKeeps` | core/src/main/golang/clash/common/lru/lrucache.go:219-224 | so does a Get that finds its key |
| `LruRuns.OldKeeps` | core/src/main/golang/clash/common/lru/lrucache.go:212-217 | and one that finds it too old |
| `LruRuns.PushedOut` | core/src/main/golang/clash/common/lru/lrucache.go:179-183 | the item that a new key pushes out had as many other keys used after it as fit into the cache |
| `Lru.LruCache.constructor` | core/src/main/golang/clash/common/lru/lrucache.go:70-79 | a new cache is empty |
| `Lru.LruCache.Clear` | core/src/main/golang/clash/common/lru/lrucache.go:81-87 | an empty cache with the same settings |
| `Lru.LruCache.DeleteElement` | core/src/main/golang/clash/common/lru/lrucache.go:250-257 | list and map lose the item together |
| `Lru.LruCache.MaybeDeleteOldest` | core/src/main/golang/clash/common/lru/lrucache.go:241-248 | the loop drops the old items at the front |
| `Lru.LruCache.MoveToBack` | core/src/main/golang/clash/common/lru/lrucache.go:219 | the item becomes the most recent, the others keep their order |
| `Lru.LruCache.SetWithExpire` | core/src/main/golang/clash/common/lru/lrucache.go:162-187 | list and map together hold the items the specification says |
| `Lru.LruCache.Set` | core/src/main/golang/clash/common/lru/lrucache.go:145-158 | the same with the expiry of the settings |
| `Lru.LruCache.GetEntry` | core/src/main/golang/clash/common/lru/lrucache.go:206-225 | the entry found is the most recent one, with its age renewed if so set; one too old is deleted |
| `Lru.LruCache.Get` | core/src/main/golang/clash/common/lru/lrucache.go:91-102 | the value, exactly if the key is there and not too old |
| `Lru.LruCache.Exist` | core/src/main/golang/clash/common/lru/lrucache.go:136-142 | presence, without touching the order |
| `Lru.LruCache.Delete` | core/src/main/golang/clash/common/lru/lrucache.go:228-239 | the items without the key |
| `FakeIpSpec.RunOk` | core/src/main/golang/clash/component/fakeip/pool.go:43-117 | after every run of Lookup, LookBack, Exist and FlushFakeIP on a memory pool, the two caches mirror each other entry by entry, and the cursor stands where the count of allocations says |
| `FakeIpSpec.StepOk` | core/src/main/golang/clash/component/fakeip/pool.go:43-117 | one operation keeps that |
| `FakeIpSpec.TouchBoth` | core/src/main/golang/clash/component/fakeip/memory.go:15-39 | making a pair recent in both caches keeps them mirrored |
| `FakeIpSpec.DeleteBoth` | core/src/main/golang/clash/component/fakeip/memory.go:47-52 | deleting a pair from both keeps them mirrored |
| `FakeIpSpec.PutBoth` | core/src/main/golang/clash/component/fakeip/memory.go:26-44 | adding a pair to both keeps them mirrored, the evicted entries being each other's mirror |
| `FakeIpSpec.ExactInverses` | core/src/main/golang/clash/component/fakeip/memory.go:15-52 | host to address and address to host are inverse to each other, both ways |
| `FakeIpSpec.NoSharing` | core/src/main/golang/clash/component/fakeip/memory.go:15-52 | two live hosts never share an address |
| `FakeIpSpec.GetByHostOk` | core/src/main/golang/clash/component/fakeip/memory.go:15-23 | the address of the host; no binding changes |
| `FakeIpSpec.GetByIpOk` | core/src/main/golang/clash/component/fakeip/memory.go:31-39 | the host of the address; no binding changes |
| `FakeIpSpec.DelByIpOk` | core/src/main/golang/clash/component/fakeip/memory.go:47-52 | the address is free, all others keep their hosts |
| `FakeIpSpec.PutPairOk` | core/src/main/golang/clash/component/fakeip/pool.go:106 | a new pair is bound; any other address keeps its host or is evicted |
| `FakeIpSpec.NextAddress` | core/src/main/golang/clash/component/fakeip/pool.go:95-100 | one step of the cursor, around the end, in closed form |
| `FakeIpSpec.CursorOk` | core/src/main/golang/clash/component/fakeip/pool.go:94-108 | each fresh allocation gives the next address of the cycle |
| `FakeIpSpec.GrantOk` | core/src/main/golang/clash/component/fakeip/pool.go:94-108 | an address is taken from whoever has it and bound to the new host alone |
| `FakeIpSpec.LookupOk` | core/src/main/golang/clash/component/fakeip/pool.go:43-56 | after a Lookup, the address given is bound to the lower-cased name |
| `FakeIpSpec.NewOk` | core/src/main/golang/clash/component/fakeip/pool.go:159-178 | a pool is made exactly when the network is valid and the fourth address after its own lies below its last |
| `FakeIpSpec.LiveIsLatest` | core/src/main/golang/clash/component/fakeip/pool.go:94-108 | a live host has an address of the range, and is the last the address was given to |
| `FakeIpSpec.AllocationOrder` | core/src/main/golang/clash/component/fakeip/pool.go:94-117 | the k-th fresh allocation is first + ((k-1) mod (last-first)) |
| `FakeIpSpec.ReuseAfterFullCycle` | core/src/main/golang/clash/component/fakeip/pool.go:94-108 | an address is handed out again only after last-first fresh allocations |
| `FakeIpSpec.LookBackOfLookup` | core/src/main/golang/clash/component/fakeip/pool.go:43-64 | after any run, and for any way of lower-casing, the address of a Lookup is neither network, gateway nor broadcast, leads back to the lower-cased name, and is what every name with the same lower case gets next, without a new allocation |
| `FakeIpSpec.ExistIsLive` | core/src/main/golang/clash/component/fakeip/pool.go:67-72 | after every run, an address exists exactly when some host has it, and exactly then it can be looked back |
| `FakeIpSpec.NoMoreThanSize` | core/src/main/golang/clash/component/fakeip/memory.go:75-80 | after every run, both caches hold equally many pairs, at most as many as the size given |
| `FakeIpRuns.StaysWithHost` | core/src/main/golang/clash/component/fakeip/pool.go:43-117 | after any run and a use of a host, it keeps its address and a later Lookup allocates none, while nothing is flushed, fewer other hosts are used than the store has room for, and the addresses handed out since its own have not come round to it |
| `FakeIpRuns.RunKeepsHost` | core/src/main/golang/clash/component/fakeip/pool.go:43-117 | the same of any host used last, over the run that follows |
| `FakeIpRuns.TrackedSet` | core/src/main/golang/clash/common/lru/lrucache.go:174-183 | a new host does not push out one after which fewer others were used than there is room for |
| `FakeIp.MemoryStore.constructor` | core/src/main/golang/clash/component/fakeip/memory.go:75-80 | two empty caches of the size given |
| `FakeIp.MemoryStore.GetByHost` | core/src/main/golang/clash/component/fakeip/memory.go:15-23 | refines the store operation on both cache objects |
| `FakeIp.MemoryStore.GetByIP` | core/src/main/golang/clash/component/fakeip/memory.go:31-39 | refines the store operation |
| `FakeIp.MemoryStore.PutByHost` | core/src/main/golang/clash/component/fakeip/memory.go:26-28 | refines the store operation |
| `FakeIp.MemoryStore.PutByIP` | core/src/main/golang/clash/component/fakeip/memory.go:42-44 | refines the store operation |
| `FakeIp.MemoryStore.DelByIP` | core/src/main/golang/clash/component/fakeip/memory.go:47-52 | refines the store operation |
| `FakeIp.MemoryStore.Exist` | core/src/main/golang/clash/component/fakeip/memory.go:55-57 | presence of the address |
| `FakeIp.MemoryStore.FlushFakeIP` | core/src/main/golang/clash/component/fakeip/memory.go:69-73 | both caches empty |
| `FakeIp.Pool.New` | core/src/main/golang/clash/component/fakeip/pool.go:159-188 | a valid pool or an error, exactly as the specification says |
| `FakeIp.Pool.constructor` | core/src/main/golang/clash/component/fakeip/pool.go:171-183 | the cursor stands before the first address |
| `FakeIp.Pool.Advance` | core/src/main/golang/clash/component/fakeip/pool.go:95-100 | the cursor wraps at the end and records that it did |
| `FakeIp.Pool.Free` | core/src/main/golang/clash/component/fakeip/pool.go:102-104 | the address at the cursor is taken from whoever has it |
| `FakeIp.Pool.Get` | core/src/main/golang/clash/component/fakeip/pool.go:94-108 | refines a fresh allocation |
| `FakeIp.Pool.Lookup` | core/src/main/golang/clash/component/fakeip/pool.go:43-56 | refines Lookup |
| `FakeIp.Pool.Assign` | core/src/main/golang/clash/component/fakeip/pool.go:52-56 | refines the allocation and recording of an address for a new host |
| `FakeIp.Pool.LookBack` | core/src/main/golang/clash/component/fakeip/pool.go:59-64 | refines LookBack |
| `FakeIp.Pool.Exist` | core/src/main/golang/clash/component/fakeip/pool.go:67-72 | presence of the address |
| `FakeIp.Pool.FlushFakeIP` | core/src/main/golang/clash/component/fakeip/pool.go:110-117 | an empty store and the cursor back before the first address |
| `DagSort.ProxyGroupsDagSort` | core/src/main/golang/clash/config/utils.go:17-144 | returns nil exactly when the reference graph has no cycle, and then the array is a permutation of its input with each group behind all it names; otherwise reports a non-empty set of groups that contains every group on a cycle, each with a predecessor and a successor in the set; a decoding fault or duplicate name is reported as the first fault, with the array untouched |
| `DagSort.BuildGraph` | core/src/main/golang/clash/config/utils.go:33-58 | the graph has a node for each group and each name referred to, with the number of references to it, or the first fault |
| `DagSort.AddGroup` | core/src/main/golang/clash/config/utils.go:40-57 | one more group, unless its name is taken |
| `DagSort.FaultStays` | core/src/main/golang/clash/config/utils.go:36-44 | the first fault is the one reported |
| `DagSort.InitialQueue` | core/src/main/golang/clash/config/utils.go:62-68 | the nodes without references to them, in any order, each once |
| `DagSort.TopologicalSort` | core/src/main/golang/clash/config/utils.go:69-90 | ends with no node that nothing refers to, all groups that left written from the back in their order |
| `DagSort.Turn` | core/src/main/golang/clash/config/utils.go:70-90 | one turn keeps the invariant, and the graph shrinks |
| `DagSort.TurnOk` | core/src/main/golang/clash/config/utils.go:70-90 | counts stay right, each node is queued at most once, cycles stay in the graph |
| `DagSort.Release` | core/src/main/golang/clash/config/utils.go:81-87 | each reference is forgotten as often as it is made |
| `DagSort.LeaveCounted` | core/src/main/golang/clash/config/utils.go:81-89 | when a node leaves, the counts are those of the groups left |
| `DagSort.RecordGraph` | core/src/main/golang/clash/config/utils.go:97-116 | each node gets its out-degree and all that refer to it, each as often as it does |
| `DagSort.ReferrersStay` | core/src/main/golang/clash/config/utils.go:129-130 | every recorded referrer is still in the graph when its reference is forgotten: no lookup of the second pass hits a deleted node |
| `DagSort.TrimCounted` | core/src/main/golang/clash/config/utils.go:126-136 | trimming keeps the out-degrees those of the nodes left |
| `DagSort.Trim` | core/src/main/golang/clash/config/utils.go:126-136 | one turn of trimming keeps the invariant, and the graph shrinks |
| `DagSort.TrimmedOk` | core/src/main/golang/clash/config/utils.go:117-143 | what is left after trimming has a predecessor and a successor among the rest |
| `DagSort.StuckHasCycle` | core/src/main/golang/clash/config/utils.go:92-97 | a sort that leaves a node behind has a cycle to show for it |
| `DagSort.ReportOk` | core/src/main/golang/clash/config/utils.go:137-143 | the set reported names the loops, and there is one |
| `DagSort.LocateLoop` | core/src/main/golang/clash/config/utils.go:97-143 | the second pass as a whole |
| `DagSort.SortedOk` | core/src/main/golang/clash/config/utils.go:74-75 | groups written from the back in order of leaving are a permutation in dependency order |
| `DagSort.SameElements` | core/src/main/golang/clash/config/utils.go:74-75 | the same elements in another order, as often each |
| `DagSpec.SortedIsAcyclic` | core/src/main/golang/clash/config/utils.go:92-95 | groups in dependency order have no cycle |
| `DagSpec.PredecessorsCycle` | core/src/main/golang/clash/config/utils.go:97-143 | a non-empty finite set whose members all have predecessors contains a cycle |
| `DagSpec.WalkBack` | core/src/main/golang/clash/config/utils.go:97-143 | walking back through predecessors must repeat a name |
| `DagSpec.CycleNeighbours` | core/src/main/golang/clash/config/utils.go:97-143 | a node of a cycle has a neighbour before and after it on the cycle |
| `DagSpec.CountedIffListed` | core/src/main/golang/clash/config/utils.go:51-57 | a node has a positive count exactly when a group left lists it |
| `DagSpec.CountWithout` | core/src/main/golang/clash/config/utils.go:81-87 | what counts change when a group leaves |
| `DagSpec.OutWithout` | core/src/main/golang/clash/config/utils.go:129-135 | what out-degrees change when a node leaves |
| `SubRules.VerifySubRule` | core/src/main/golang/clash/config/config.go:1014-1022 | no error exactly when every sub-rule target exists and no references loop; an error names a missing target or a real loop |
| `SubRules.AllVerified` | core/src/main/golang/clash/config/config.go:1014-1051 | the recursion finds nothing from any name exactly when the table is sound |
| `SubRules.FaultIsReal` | core/src/main/golang/clash/config/config.go:1024-1051 | what is reported is a real missing target or a real loop |
| `SubRules.RealIsUnsound` | core/src/main/golang/clash/config/config.go:1037-1043 | either makes the table unsound |
| `SubRules.NothingFound` | core/src/main/golang/clash/config/config.go:1035-1049 | where nothing was found, every target exists, is not on the way, and was searched |
| `SubRules.NothingMet` | core/src/main/golang/clash/config/config.go:1024-1051 | where nothing was found, no chain of references meets the way or itself |
| `SubRules.FaultOfName` | core/src/main/golang/clash/config/config.go:1016-1019 | a fault found from any name shows the table unsound |
| `SubRules.WayFits` | core/src/main/golang/clash/config/config.go:1034-1045 | the way holds distinct existing names, so it is no longer than the table: the recursion terminates |
| `Murmur3.Digest32.Write` | core/src/main/golang/clash/common/murmur3/murmur.go:19-44 | what was written before and the new data together are what the digest has taken in, however the data was cut; the bytes held back are fewer than four |
| `Murmur3.Digest32.Sum32` | core/src/main/golang/clash/common/murmur3/murmur32.go:69-97 | the streaming hash is the one-shot hash of everything written since the last reset |
| `Murmur3.Digest32.StickBack` | core/src/main/golang/clash/common/murmur3/murmur.go:23-35 | completing the pending word, or extending the pending bytes, loses nothing |
| `Murmur3.Digest32.constructor` | core/src/main/golang/clash/common/murmur3/murmur32.go:32-38 | a new digest has taken in nothing |
| `Murmur3.Digest32.Reset` | core/src/main/golang/clash/common/murmur3/murmur.go:46-50 | as new, with the same seed |
| `Murmur3.BMix` | core/src/main/golang/clash/common/murmur3/murmur32.go:50-67 | the loop mixes the whole words and leaves the tail |
| `Murmur3.Finish` | core/src/main/golang/clash/common/murmur3/murmur32.go:69-97 | the fall-through switch mixes the tail, then the length |
| `Murmur3.Sum32WithSeed` | core/src/main/golang/clash/common/murmur3/murmur32.go:101-144 | the one-shot loop computes the hash |
| `Murmur3.MixAppend` | core/src/main/golang/clash/common/murmur3/murmur32.go:50-67 | mixing may stop between whole words |
| `Murmur3.WordsInPieces` | core/src/main/golang/clash/common/murmur3/murmur32.go:53-55 | the words of two pieces are the words of the whole, the first piece ending a word |
| `Murmur3.MixInPieces` | core/src/main/golang/clash/common/murmur3/murmur32.go:53-64 | mixing words one list after the other mixes both lists |
| `Murmur3.WholeWords` | core/src/main/golang/clash/common/murmur3/murmur32.go:65-66 | the bytes past the whole words do not reach the running hash |
| `Murmur3.KnownHashes` | core/src/main/golang/clash/common/murmur3/murmur32.go:101-144 | the published hashes of inputs of zero to four bytes, with the constants of the code |
| `Murmur3.LoadIsLittleEndian` | core/src/main/golang/clash/common/murmur3/murmur32.go:54 | a word is loaded with its first byte lowest |
| `Murmur3.TailIsPadded` | core/src/main/golang/clash/common/murmur3/murmur32.go:72-83 | the bytes left over are mixed in as a word filled up with zeros |
| `WebSocketMask.MaskWebSocket` | core/src/main/golang/clash/common/net/websocket.go:22-131 | the unrolled loops give the octet-wise mask of section 5.3 of RFC 6455, and the key returned is the key rotated by length mod 4 octets |
| `WebSocketMask.MaskInPieces` | core/src/main/golang/clash/common/net/websocket.go:15-16 | masking in two pieces, the second with the key carried over, masks the whole |
| `WebSocketMask.RotateInPieces` | core/src/main/golang/clash/common/net/websocket.go:15-16 | the key carried over two pieces is the key carried over both at once |
| `WebSocketMask.MaskTwice` | core/src/main/golang/clash/common/net/websocket.go:22-131 | masking twice with the same key restores the data |
| `WebSocketMask.XorOctets` | core/src/main/golang/clash/common/net/websocket.go:118-122 | a 32-bit operation masks four octets |
| `WebSocketMask.XorHalves` | core/src/main/golang/clash/common/net/websocket.go:24-33 | a 64-bit operation with the key doubled is a 32-bit operation on each half |
| `WebSocketMask.LoadHalves` | core/src/main/golang/clash/common/net/websocket.go:31 | loading eight octets loads four into each half |
| `WebSocketMask.StoreHalves` | core/src/main/golang/clash/common/net/websocket.go:32 | storing eight octets stores those of each half |
| `WebSocketMask.MaskWord` | core/src/main/golang/clash/common/net/websocket.go:118-122 | four octets loaded, combined with the key and stored are the octet-wise mask of the four |
| `WebSocketMask.MaskWord64` | core/src/main/golang/clash/common/net/websocket.go:30-33 | eight octets loaded as one word, combined with the key doubled and stored are the octet-wise mask of the eight |
| `WebSocketMask.RotatedOctets` | core/src/main/golang/clash/common/net/websocket.go:125-128 | rotating the key word by eight bits moves its first octet to its back |
| `WebSocketMask.OctetsOfWord` | core/src/main/golang/clash/common/net/websocket.go:119-120 | reading four octets as a word and taking its octets gives them back |
| `WebSocketMask.PartsInARow` | core/src/main/golang/clash/common/net/websocket.go:30-122 | parts a multiple of four long leave the key as it is |
| `WebSocketMask.Xor4` | core/src/main/golang/clash/common/net/websocket.go:118-122 | four more octets are masked |
| `WebSocketMask.Xor8` | core/src/main/golang/clash/common/net/websocket.go:110-114 | eight more, by one 64-bit load, combination and store |
| `WebSocketMask.Xor16` | core/src/main/golang/clash/common/net/websocket.go:101-107 | sixteen more |
| `WebSocketMask.Xor32` | core/src/main/golang/clash/common/net/websocket.go:88-98 | thirty-two more |
| `WebSocketMask.Xor64` | core/src/main/golang/clash/common/net/websocket.go:67-85 | sixty-four more |
| `WebSocketMask.Xor128` | core/src/main/golang/clash/common/net/websocket.go:30-64 | a hundred and twenty-eight more |
| `WebSocketMask.MaskByEights` | core/src/main/golang/clash/common/net/websocket.go:23-115 | the five unrolled loops |
| `WebSocketMask.MaskByFours` | core/src/main/golang/clash/common/net/websocket.go:117-122 | the loop by fours leaves fewer than four octets |
| `WebSocketMask.MaskRest` | core/src/main/golang/clash/common/net/websocket.go:124-128 | the last octets, the key rotating |
| `WebSocketMask.MaskAll` | core/src/main/golang/clash/common/net/websocket.go:22-131 | the three parts in turn |
| `IntRanges.Merge` | core/src/main/golang/clash/common/utils/ranges.go:154-173 | sorting and merging in place leave well-formed ranges, sorted, disjoint and not adjacent, with exactly the members of the input, up to the maximum of the type |
| `IntRanges.MergeSorted` | core/src/main/golang/clash/common/utils/ranges.go:161-171 | the pass that writes into the array it reads |
| `IntRanges.MergeNext` | core/src/main/golang/clash/common/utils/ranges.go:163-171 | one range merged; the ranges still to be read are untouched |
| `IntRanges.MergeOneOk` | core/src/main/golang/clash/common/utils/ranges.go:164-170 | merging one more range adds exactly its members, the type's maximum included |
| `IntRanges.SortRanges` | core/src/main/golang/clash/common/utils/ranges.go:158-160 | sorted by start, a permutation |
| `IntRanges.NormalIsUnique` | core/src/main/golang/clash/common/utils/ranges.go:154-173 | two such lists with the same members are equal, so the result of Merge depends on the members alone |
| `IntRanges.FirstGap` | core/src/main/golang/clash/common/utils/ranges.go:164-166 | the first range ends where the members first break off |
| `IntRanges.Check` | core/src/main/golang/clash/common/utils/ranges.go:100-112 | membership in one of the ranges; the empty list accepts everything |
| `IntRanges.EachValue` | core/src/main/golang/clash/common/utils/ranges.go:143-149 | every value of a range in order until one is refused; it ends at the maximum of the type |
| `IntRanges.RangeOver` | core/src/main/golang/clash/common/utils/ranges.go:137-152 | the values of all ranges in order until one is refused |
| `IntRanges.ValuesAre` | core/src/main/golang/clash/common/utils/ranges.go:137-152 | the values visited are exactly the members |
| `IntRanges.NewRange` | core/src/main/golang/clash/common/utils/range.go:12-24 | the two ends in order |
| `RangeText.ReadsBack` | core/src/main/golang/clash/common/utils/ranges.go:17-135 | parsing what was printed gives the list back exactly when it has at most 28 ranges and its numbers are below 2^63; a longer list is refused as too many, larger numbers as malformed; the empty list goes through a star |
| `RangeText.TermOk` | core/src/main/golang/clash/common/utils/ranges.go:119-131 | one range printed reads back as itself exactly when its numbers are below 2^63, and is malformed otherwise |
| `RangeText.ParseCutsDown` | core/src/main/golang/clash/common/utils/ranges.go:68-74 | a number is read back as itself exactly when it fits the type; a larger one is silently cut down |
| `RangeText.DecimalDigits` | core/src/main/golang/clash/common/utils/ranges.go:126-128 | decimal digits have the value they were made from |
| `RangeText.SplitJoin` | core/src/main/golang/clash/common/utils/ranges.go:134 | joining and splitting are inverse when no piece holds the separator |
| `RangeText.String` | core/src/main/golang/clash/common/utils/ranges.go:114-135 | the loop prints the list |
| `RangeText.PrintedForm` | core/src/main/golang/clash/common/utils/ranges.go:114-135 | a list is printed as a star, or range by range with slashes in between and no comma: a single number in decimal without leading zeros, two with a dash in between; numbers from 2^63 on as negative ones |
| `RangeGrammar.NewUnsignedRanges` | core/src/main/golang/clash/common/utils/ranges.go:76-78 | arbitrary text is read as a list exactly if it means that list — white space around nothing, a star, or at most 28 pieces between slashes or commas; it is refused as too many exactly from 28 separators on; and what is read is at most 28 ranges, in order and within the type, as Merge demands |
| `RangeGrammar.NewUnsignedRangesFromList` | core/src/main/golang/clash/common/utils/ranges.go:80-82 | a list of pieces is read as what the pieces mean one after the other, or refused; what is read can be merged |
| `RangeGrammar.TextIs` | core/src/main/golang/clash/common/utils/ranges.go:17-35 | the text is read as a list if and only if it means that list |
| `RangeGrammar.ListIs` | core/src/main/golang/clash/common/utils/ranges.go:37-66 | pieces are read if and only if each of them means something, as all they mean one after the other |
| `RangeGrammar.ItemIs` | core/src/main/golang/clash/common/utils/ranges.go:39-63 | a piece is read as nothing, one number or two in either order, if and only if it is empty, the text of a number, or two such with a dash between |
| `RangeGrammar.NumberIs` | core/src/main/golang/clash/common/utils/ranges.go:68-74 | a number is read exactly from its decimal notation, zeros in front and brackets and blanks around it allowed, if it fits 64 bits |
| `RangeGrammar.TrimIsCore` | core/src/main/golang/clash/common/utils/ranges.go:19 | trimming finds the one core without anything to cut at its ends |
| `RangeGrammar.SplitIs` | core/src/main/golang/clash/common/utils/ranges.go:27 | splitting gives the one list of pieces without the separator that joins to the text |
| `RangeGrammar.TooManyIs` | core/src/main/golang/clash/common/utils/ranges.go:28-30 | more than 28 pieces are the only fault told apart |
| `RangeGrammar.ListInBounds` | core/src/main/golang/clash/common/utils/ranges.go:37-66 | whatever is read is in order and within the type, one range at most for each piece |
| `RangeGrammar.PrintedMeansTheSame` | core/src/main/golang/clash/common/utils/ranges.go:17-135 | printing what a text means gives a text that means the same, exactly when the numbers are below 2^63, and one that means nothing otherwise |
| `LoadBalance.Consistent` | core/src/main/golang/clash/adapter/outboundgroup/loadbalance.go:76-86 | going from n to m buckets a key keeps its bucket or moves to one of the new ones; from n to n+1, only to bucket n |
| `LoadBalance.WalksAgree` | core/src/main/golang/clash/adapter/outboundgroup/loadbalance.go:79-83 | the jumps do not depend on the number of buckets |
| `LoadBalance.HashInRange` | core/src/main/golang/clash/adapter/outboundgroup/loadbalance.go:76-86 | with at least one bucket the hash is one of them |
| `LoadBalance.JumpHash` | core/src/main/golang/clash/adapter/outboundgroup/loadbalance.go:76-86 | the loop terminates, with the bucket the jumps lead to, for any jump that moves ahead |
| `LoadBalance.ExactJumpsAhead` | core/src/main/golang/clash/adapter/outboundgroup/loadbalance.go:82 | the jump of the code, without rounding, moves ahead |
| `LoadBalance.JumpIsBalanced` | core/src/main/golang/clash/adapter/outboundgroup/loadbalance.go:82 | of the 2^31 values of the top bits of a key, exactly (b+1) * 2^31 / n, rounded down, take it from bucket b to n or beyond, for every n above b |
| `LoadBalance.JumpsPast` | core/src/main/golang/clash/adapter/outboundgroup/loadbalance.go:82 | and they are the smallest of these values |
| `LoadBalance.OnlyTopBits` | core/src/main/golang/clash/adapter/outboundgroup/loadbalance.go:82 | the lower 33 bits of a key play no part in its jump |
| `LoadBalance.NextKeyUndone` | core/src/main/golang/clash/adapter/outboundgroup/loadbalance.go:81 | the generator leads from different keys to different keys, with an inverse |
| `LoadBalance.WalkIs` | core/src/main/golang/clash/adapter/outboundgroup/loadbalance.go:76-86 | a key goes to the last bucket below the number of buckets in the order of its jumps, each made from the bucket before with a new key |
| `LoadBalance.KeyAtIs` | core/src/main/golang/clash/adapter/outboundgroup/loadbalance.go:168-169 | the i-th try of consistent hashing is made with the key plus i, modulo 2^64 |
| `LoadBalance.NoneAliveFirst` | core/src/main/golang/clash/adapter/outboundgroup/loadbalance.go:159 | round-robin picks the first proxy when none is alive |
| `LoadBalance.ConsistentHashing` | core/src/main/golang/clash/adapter/outboundgroup/loadbalance.go:163-185 | a live proxy whenever there is one: the first of five keys in turn whose proxy is live, else the first live one of the list, else the first; it crashes exactly on an empty list |
| `LoadBalance.RoundRobin.Pick` | core/src/main/golang/clash/adapter/outboundgroup/loadbalance.go:134-161 | a live proxy whenever there is one: the first in cyclic order from the position, else the first of the list; touching moves the position just behind it, not touching leaves it; it crashes exactly on an empty list, the position then unchanged |
| `LoadBalance.EachLiveOnce` | core/src/main/golang/clash/adapter/outboundgroup/loadbalance.go:134-161 | with k live proxies, k touching calls pick each of them once, in cyclic order |
| `LoadBalance.PicksGoRound` | core/src/main/golang/clash/adapter/outboundgroup/loadbalance.go:134-161 | any number of calls goes round the live proxies in cyclic order |
| `LoadBalance.PickTurnsLive` | core/src/main/golang/clash/adapter/outboundgroup/loadbalance.go:144-157 | a touching call moves the proxy picked from the front of the live ones to their back |
| `LoadBalance.LiveFromIsLive` | core/src/main/golang/clash/adapter/outboundgroup/loadbalance.go:150-157 | the live proxies in cyclic order are exactly the live ones, each once |
| `SingleFlight.RunOk` | core/src/main/golang/clash/common/singleflight/singleflight.go:95-224 | the invariant holds after every interleaving of Do, DoChan, returns, completions, Forget and Reset |
| `SingleFlight.StepOk` | core/src/main/golang/clash/common/singleflight/singleflight.go:95-224 | every step keeps it |
| `SingleFlight.OneAnswerPerChannel` | core/src/main/golang/clash/common/singleflight/singleflight.go:125-145 | a channel has been sent nothing before its call finishes, and afterwards exactly one answer: the value of the call it joined, shared exactly if others took part |
| `SingleFlight.SameAnswer` | core/src/main/golang/clash/common/singleflight/singleflight.go:95-119 | a goroutine and a channel of the same call have the same answer |
| `SingleFlight.SameAnswerInDo` | core/src/main/golang/clash/common/singleflight/singleflight.go:100-118 | so do two goroutines, and it is marked shared exactly if more than one took part |
| `SingleFlight.FinishNeverBlocks` | core/src/main/golang/clash/common/singleflight/singleflight.go:160-184 | in every reachable state a call whose function has returned can finish: no send under the lock blocks, and only its own entry leaves the table |
| `SingleFlight.FinishDoesNotBlock` | core/src/main/golang/clash/common/singleflight/singleflight.go:179-183 | its channels are still empty, each listed once |
| `SingleFlight.SendsDoNotBlock` | core/src/main/golang/clash/common/singleflight/singleflight.go:179-183 | empty channels, each listed once, take an answer each |
| `SingleFlight.FinishOk` | core/src/main/golang/clash/common/singleflight/singleflight.go:160-184 | finishing keeps the invariant |
| `SingleFlight.OneCallPerKey` | core/src/main/golang/clash/common/singleflight/singleflight.go:90-119 | at most one call of a key that was not forgotten is unfinished |
| `SingleFlight.JoinsUnfinished` | core/src/main/golang/clash/common/singleflight/singleflight.go:100-111 | whoever finds a call in the table joins one of its own key that has not finished |
| `SingleFlightRuns.ReturnedOnce` | core/src/main/golang/clash/common/singleflight/singleflight.go:199-202 | after every run, the value of a call is what its function returned, and it returned once; before that it has not |
| `SingleFlightRuns.ChanGetsReturned` | core/src/main/golang/clash/common/singleflight/singleflight.go:179-183 | what a channel is sent is what the function of its call returned, in a call of the key given to DoChan |
| `SingleFlightRuns.TaskGetsReturned` | core/src/main/golang/clash/common/singleflight/singleflight.go:100-119 | so is what a goroutine in Do answers |
| `SingleFlightRuns.RunKeys` | core/src/main/golang/clash/common/singleflight/singleflight.go:90-145 | everyone takes part in a call of the key they gave |
| `SingleFlightRuns.ForgottenIsNotJoined` | core/src/main/golang/clash/common/singleflight/singleflight.go:209-224 | after a Forget or Reset, whoever asks for the key takes part in a call made later, however long the old one still runs |
| `SingleFlightRuns.OneAtATime` | core/src/main/golang/clash/common/singleflight/singleflight.go:86-119 | while a key is not forgotten, its function runs once at a time |

## Left out

Hash table:

- XsyncLinear.Linearizable: a reader loads the table pointer in one step and searches the chain of its key in another; `XsyncReader` takes the second apart, for one chain of one table. A Clear that waits returns once it sees the flag down; the lock and the condition variable it waits with are left out.
- XsyncReader.SearchAnswersHeld: the writers of a chain hold its lock, so there is one at a time; that a table which is copied from or has been replaced is no longer written is proved in `XsyncResize`.
- `XsyncResize` keeps the entries of a table as one map and the bucket of a key as a function; the layout of buckets is proved in the sequential model. Waiting for a resize to end, and progress in general, are not modelled; a writer turned away simply starts over.
- The buckets of a chain are values in a sequence: links between bucket objects, padding and false sharing are not captured. The order of the two atomic stores of a locked update is that of the code in `XsyncReader`; elsewhere they are one step.
- The growth threshold, a product of floats in the code, is computed exactly as 15 * length / 4 rounded down.
- `Range`, `Stats`, `ToPlainMap` and the arithmetic of `WithPresize` (the next power of two of a float product) are left out; the map is made with a minimal length.

Caches and fake-IP:

- Mutexes of the caches and the pool: each public method is one step.
- The doubly linked lists of both caches are sequences of entries; their element objects are not modelled.
- Arc.ARC.Len: answers the field as it is; it is not the number of live entries, since forgetting a ghost decrements it again (arc.go:209).
- Lru.LruCache.SetWithExpire: the evict callback is left out, and the clock is a parameter that stands still during one call.
- `GetOrStore`, `GetWithExpire`, `Compute` and `CloneTo` of the LRU cache are left out, as are `CloneFrom`, `cachefileStore` and `restoreState` of the pool: the first would add easy members, the others rest on shared entries or on a database.
- LruRuns.GetAnswers: when as many other keys were used as fit into the cache, nothing is said of the key; for runs of Sets, `LruSpec.MostRecentAreKept` says exactly which keys are kept.
- FakeIpSpec.LookBackOfLookup: the tables of Unicode lower-casing are not part of this model; any function stands for them.
- Addresses are natural numbers up to a top, past which there is no next address; the address families and the text of addresses are left out.

Configuration:

- DagSort.ProxyGroupsDagSort: the decoder is a function given as a parameter, a mapping that is nil is not told apart from others, and error texts are left out. When a loop is reported, part of the array has been overwritten from its back; the contract says nothing of it then.
- The nodes of the group graph are values in a map that the loops rebuild; the code changes them through references. The order of a Go map is any order.
- SubRules.VerifySubRule: other kinds of rules appear only as rules that do not hand over to a sub-rule. The order in which names are checked is any order.

Fast forms:

- Murmur3.Digest32.Sum32: holds for any mixing functions, of which the ones of the code are one instance. The machine is little-endian.
- WebSocketMask.MaskWebSocket: the slice is an array with an offset that moves, and the machine is little-endian.
- IntRanges.SortRanges: the library sort is some sort by start, here an insertion sort; `Merge` relies on nothing else of it.
- RangeText.ReadsBack: unsigned types on a machine whose signed integers have 64 bits; signed types are left out.
- RangeGrammar.NewUnsignedRanges: strings are sequences of characters, not bytes; error texts are left out.

Selection and sharing:

- LoadBalance.JumpHash: rounding is left out; the results hold for every jump that goes at least one bucket ahead, and the jump with exact division is one.
- LoadBalance.EachLiveOnce: the same proxies stay alive during the calls.
- Sticky sessions, the keys made from metadata and their hashing are left out.
- `SingleFlight` is a system of steps on values, not a class: a step is what a goroutine does while it holds the mutex. `StoreResult`, panics and `Goexit` are left out, and error and value of a call are one value.
- Dialers, transports, listeners, DNS, the control server and everything else that talks to the network or the system are left out.
