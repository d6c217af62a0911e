# Verified models of the POSIX-threads labs

This project models the concurrent protocols and state machines of the repository and proves what
they are for: safety in every interleaving, freedom from deadlock and from lost wake-ups,
conservation of messages and tasks, refinement of abstract queues and caches, termination, and a
round trip for the URL parser. All statements range over any number of threads, any directory tree
and any input.

`dafny verify dfyconfig.toml` checks everything.

## How the models are built

- Code that changes an object in place is a class or a method on an array, proved against a function
  on values: the ring buffer (`Quasi`), the LRU store (`Cache`), the slot copy of the work queue
  (`WriteSlot`), the task stack and the task queue of the tree copies, which are chains of heap nodes
  (`Links`), and the food store. The worker and finalisation loops of the series sum and the driver
  loop of the URL parser (`Parse`) are loops with invariants.
- Threads are program counters. A step is one mutex-held section where nothing can be observed in
  between, and a single lock, unlock, semaphore or atomic operation where the code depends on it.
  `Runs` holds the induction principle over runs; an invariant that every step keeps holds in
  every reachable state. Where a thread is called for something, the model keeps what it was called
  for beside its program counter, so that what comes of a call can be compared with what was asked.
- A mutex is free for anyone once it is released; scheduling is arbitrary. Reads of flags and
  counters are sequentially consistent.

| file | program |
|---|---|
| `Quasi.dfy`, `QuasiProtocol.dfy` | bounded message queue with drop epochs, a.yanin/26 |
| `CacheEntries.dfy`, `CacheLocks.dfy`, `CacheCalls.dfy`, `CacheReaders.dfy`, `CacheStore.dfy` | streaming LRU cache, a.yanin/waxy |
| `WorkQueue.dfy`, `WorkQueueProtocol.dfy` | semaphore work queue with invalidation, s.pchelintsev/25 |
| `UrlParser.dfy`, `UrlTexts.dfy`, `UrlLoop.dfy` | URL parser, a.yanin/waxy: the parser, texts, stretches of its loop |
| `UrlPlaces.dfy`, `UrlLayout.dfy`, `UrlParts.dfy`, `UrlFiles.dfy` | the round trip of a URL through it |
| `UrlDecoding.dfy` | what the encoder, the lower-casing and the port number mean, and the round trip read through them |
| `UrlVerdict.dfy` | the failures it does not report |
| `UrlUserinfo.dfy` | what it makes of user information |
| `UrlCleaning.dfy` | the clean-up of its input |
| `Trees.dfy`, `Links.dfy`, `TreeStack.dfy` | tree copy with a task stack, r.tolkacheva/lab7 |
| `TaskQueue.dfy` | tree copy with a counted queue, m.dyagilev/7 |
| `PrintRing.dfy` | print ring, k.romanov/11 |
| `SeriesSum.dfy` | interruptible series sum, a.yanin/09 |
| `Philosophers.dfy` | dining philosophers, a.yanin/10 |
| `Runs.dfy`, `Counting.dfy`, `Modular.dfy` | runs, counting over sequences, remainders |

## What turned out differently from what one would expect

- A read handle opened on an entry that is already complete and empty is never told the end of the
  file. `CacheReaders.UntoldExactlyWhenLate` shows that this is the only case, in both directions,
  and `CacheReaders.LateReaderExists` that it occurs.
- An input without a scheme is reported as fatal exactly when it has two characters or more and
  begins with a letter (`UrlParts.RefusedExactlyWhen`); `""`, `"1a"` and `"a"` are accepted
  (`UrlParts.SchemelessAccepted`). The cursor wraps below zero, or the input ends, before the loop
  looks at the failure state.
- For the same reason a failure on the last turn is not reported. `UrlVerdict.SwallowedExactlyWhen`
  says for every input whether that happens, and `UrlVerdict.PlainSwallowedExactlyWhen` says it of
  inputs without `@` in terms of their parts: a single letter, or a port above 65535 at the very end
  (`h:x:65536`). With `@`, an authority that consists of `@` or `:@` is accepted without a host
  (`h:@`); `h:a@` is not such an input (`UrlVerdict.UserIsNotSwallowed`).
- A URL with a user name is accepted with a host that is not its host: in `http://user@host` it is
  `ser@host`. `UrlUserinfo.UserinfoSpoilsHost` says so for every scheme, user name and host; without
  an `@` the host comes back (`UrlParts.PartsComeBack`).
- The clean-up moves the text away from the blanks at its head instead of over them.
  `UrlCleaning.TrimsExactlyWhen` says that it trims exactly when there are none or nothing else, and
  `UrlCleaning.LeadingSpaceIsAccepted` that a URL behind a space is accepted as an empty one.
- The slash that opens the path belongs to the path after a bare host and is swallowed after a port
  and in a `file` URL; `UrlParts.PartsComeBack` and `UrlFiles.FilePartsComeBack` state what is found.
- A return code of 0 from `wqPut` or `wqPop` is meant to say that the call was refused. It says so
  exactly when the call was refused or its message, or its buffer, is not empty
  (`WorkQueueProtocol.ZeroMeansRefusedExactlyWhen`); the empty message is accepted with code 0
  (`WorkQueueProtocol.EmptyPutLooksRefused`).
- `cache.h` (lines 118-119) says that the longer of two colliding entries is kept; the code keeps
  the stored one when it is the shorter. The model follows the code.

## Model

| member | source | states |
|---|---|---|
| `QuasiMonitor.AdvanceRdContents` | a.yanin/26/src/quasi.c:76-86 | moving the read cursor takes exactly the oldest message off the ring's contents, also across the wrap and from a full ring |
| `QuasiMonitor.AdvanceWrContents` | a.yanin/26/src/quasi.c:88-98 | writing at the write cursor and moving it appends one message; the ring is full exactly when the cursors meet |
| `QuasiMonitor.Quasi.constructor` | a.yanin/26/src/quasi.c:6-63 | a new queue is empty, open, with nobody counted and the given capacity |
| `QuasiMonitor.Quasi.IsEmpty` | a.yanin/26/src/quasi.c:65-67 | true exactly when no message is queued |
| `QuasiMonitor.Quasi.IsFull` | a.yanin/26/src/quasi.c:69-74 | true exactly when as many messages are queued as the capacity; the assert in it holds |
| `QuasiMonitor.Quasi.AdvanceRd` | a.yanin/26/src/quasi.c:76-86 | refuses on an empty ring, otherwise drops the oldest message and keeps the rest |
| `QuasiMonitor.Quasi.PopUnsync` | a.yanin/26/src/quasi.c:100-110 | hands out the oldest message and removes it, or refuses on an empty ring |
| `QuasiMonitor.Quasi.PushUnsync` | a.yanin/26/src/quasi.c:112-122 | appends the message, or refuses on a full ring and changes nothing |
| `QuasiMonitor.Quasi.Unlock` | a.yanin/26/src/quasi.c:140-154 | leaves the count as it should be and reopens a dropped queue exactly with the last counted thread |
| `QuasiMonitor.Quasi.Push` | a.yanin/26/src/quasi.c:190-213 | the ring does what the abstract push section does: new contents, notification on the empty edge only, sleep, result; the assert after the push holds |
| `QuasiMonitor.Quasi.Pop` | a.yanin/26/src/quasi.c:215-238 | the same for pop, with notification on the full edge only |
| `QuasiMonitor.Quasi.Drop` | a.yanin/26/src/quasi.c:171-188 | the drain loop empties the ring, the epoch becomes dropped, everyone is notified |
| `QuasiProtocol.StepKeepsInv` | a.yanin/26/src/quasi.c:124-238 | every step of every thread keeps the epoch, counting, wake-up and conservation invariant |
| `QuasiProtocol.NeverAllAsleep` | a.yanin/26/src/quasi.c:124-238 | with a producer and a consumer no reachable state has every thread asleep, although signals are sent on the empty and full edges only and drops come at any time |
| `QuasiProtocol.AwakeCanStep` | a.yanin/26/src/quasi.c:124-238 | a thread that is not asleep can take a step in every reachable state |
| `QuasiProtocol.EpochsAreExact` | a.yanin/26/src/quasi.c:124-154 | `blocked_count` is the number of threads inside; DROPPED is returned exactly by those a drop found inside; while dropped the queue is empty and all of them are awake |
| `QuasiProtocol.LateComersWait` | a.yanin/26/src/quasi.c:124-154 | while dropped nobody new is counted in and nothing is queued; the epoch ends exactly when the last counted thread leaves, and then nobody is left asleep on the drop condition |
| `QuasiProtocol.FifoAndConservation` | a.yanin/26/src/quasi.c:171-238 | within an epoch the popped messages are a prefix of the pushed ones and the rest is queued; over a run pushes are pops plus discarded plus queued |
| `QuasiProtocol.CallsKeepTheirMessage` | a.yanin/26/src/quasi.c:124-213 | in every reachable state a thread that waits inside a push, or behind a drop before it, still carries the message of its call |
| `QuasiProtocol.CallsDoTheirJob` | a.yanin/26/src/quasi.c:171-238 | whatever happens between the sections of a call, the push that returns OK has queued the message of its own call, the pop that returns OK hands out the message that left the head of the queue, a drop leaves the queue empty, nothing else moves the queue, and nobody's call or result is touched by others |
| `CacheLocks.StepKeepsInv` | a.yanin/waxy/src/cache.c:222-792 | every step of every thread keeps the locking, list, map and byte-count invariant |
| `CacheLocks.NoDeadlock` | a.yanin/waxy/src/cache.c:222-792 | from any thread inside an operation at most three awaited locks, each followed to the thread that owns it, lead to a thread that can step |
| `CacheLocks.AwaitedEntryHolderRuns` | a.yanin/waxy/src/cache.c:222-249 | the holder of an entry that the thread inside the cache lock waits for waits for nothing itself |
| `CacheLocks.NestedLocksAreSafe` | a.yanin/waxy/src/cache.c:710-792 | a thread that waits for the cache lock with an entry locked holds one that is not listed and that nobody inside the cache lock waits for |
| `CacheLocks.BooksBalance` | a.yanin/waxy/src/cache.c:109-123 | whenever the cache lock is free, map and list are in bijection, an entry is listed exactly when committed with a non-null cache pointer, and the byte count is the sum of the listed buffers |
| `CacheLocks.WeightIsListedBytes` | a.yanin/waxy/src/cache.c:660-694 | the bytes of committed attached entries are the bytes of the listed ones |
| `CacheLocks.AssertsHold` | a.yanin/waxy/src/cache.c:222-261 | a removal finds its own node and never more bytes than the total; a commit finds a cache pointer; the break for an empty list over the limit is never taken |
| `CacheLocks.EvictsLeastRecentlyUsed` | a.yanin/waxy/src/cache.c:251-261 | eviction takes the head of the list, only while over the limit, and the head is older in use than every other entry |
| `CacheLocks.UseMovesToEnd` | a.yanin/waxy/src/cache.c:348-414 | only a hit or a commit refreshes an entry, and either puts it at the end of the list |
| `CacheCalls.StepKeepsServing` | a.yanin/waxy/src/cache.c:222-792 | every step of every thread keeps each program counter in agreement with the request its thread was started for |
| `CacheCalls.EntriesAreKept` | a.yanin/waxy/src/cache.c:222-792 | over every step an entry keeps its URL, grows until it is complete and not after, changes its state once, and is committed, published and detached once and for all |
| `CacheCalls.FetchGivesItsUrl` | a.yanin/waxy/src/cache.c:391-430 | a fetch that is about to return has an entry for the URL it was asked for |
| `CacheCalls.FetchReturns` | a.yanin/waxy/src/cache.c:391-430 | the return publishes that entry and frees the cache lock |
| `CacheCalls.NewOnlyIfNoneUsable` | a.yanin/waxy/src/cache.c:251-373 | an entry is made only for the URL of the fetch, only if none or an invalid one is stored under it at that moment, and only with the cache within its limit |
| `CacheCalls.HitOnlyIfUsable` | a.yanin/waxy/src/cache.c:348-389 | a fetch hits only the entry stored under its URL, and only if it does not find it invalid with its lock in hand |
| `CacheCalls.CommitTakesEffect` | a.yanin/waxy/src/cache.c:710-792 | a commit comes back with its entry committed exactly unless it has found a shorter one stored under the URL with both locks in hand |
| `CacheCalls.ActTakesEffect` | a.yanin/waxy/src/cache.c:640-708 | a write, completion or release changes the entry it was asked for as it should and no other |
| `CacheStore.TrimIsShortestPrefix` | a.yanin/waxy/src/cache.c:251-261 | eviction removes a prefix of the recency order, brings the total within the limit, and no shorter prefix would |
| `CacheStore.TouchMovesToEnd` | a.yanin/waxy/src/cache.c:375-380 | the entry that is hit stands last afterwards and all others keep their order |
| `CacheStore.TouchByUse` | a.yanin/waxy/src/cache.c:375-380 | a hit keeps the list in the order of last use |
| `CacheStore.EvictedBefore` | a.yanin/waxy/src/cache.c:251-261 | in a list in the order of last use, whatever is taken from the front was last used before all that stays |
| `CacheStore.TouchConsistent` | a.yanin/waxy/src/cache.c:348-389 | moving an entry to the end keeps list, map and entries in agreement |
| `CacheStore.RemoveConsistent` | a.yanin/waxy/src/cache.c:222-249 | unlinking, detaching and forgetting an entry keeps list, map and entries in agreement and takes exactly its item away |
| `CacheStore.CommitConsistent` | a.yanin/waxy/src/cache.c:755-771 | listing a committed entry keeps the agreement and adds exactly its item and its bytes |
| `CacheStore.WriteSound` | a.yanin/waxy/src/cache.c:660-694 | a write keeps the agreement and moves the byte count by the written bytes exactly when the entry is listed |
| `CacheStore.Cache.constructor` | a.yanin/waxy/src/cache.c:151-195 | a new cache is empty |
| `CacheStore.Cache.RemoveAt` | a.yanin/waxy/src/cache.c:222-249 | the recency sequence loses exactly the entry at this position |
| `CacheStore.Cache.EvictIfNecessary` | a.yanin/waxy/src/cache.c:251-261 | the recency sequence becomes its longest suffix within the limit, and every entry that goes was last hit or committed before every one that stays |
| `CacheStore.Cache.Hit` | a.yanin/waxy/src/cache.c:348-389 | the entry stands last, the others keep their order, and the use is recorded; `Valid`, which all methods keep, says that the list is in the order of the last hit or commit |
| `CacheStore.Cache.CreateEntry` | a.yanin/waxy/src/cache.c:263-346 | a new entry is partial, empty and uncommitted, and the list does not change |
| `CacheStore.Cache.Fetch` | a.yanin/waxy/src/cache.c:391-430 | a hit exactly on a stored entry that is not invalid, which then stands last with the others in their old order; otherwise eviction of those last used before all that stay, and a new entry |
| `CacheStore.Cache.Write` | a.yanin/waxy/src/cache.c:660-694 | an empty write succeeds and changes nothing; any other is refused on a complete entry, and otherwise the buffer grows, and the recency sequence and its total with it if the entry is listed |
| `CacheStore.Cache.Append` | a.yanin/waxy/src/cache.c:755-771 | the committed entry becomes the most recent item |
| `CacheStore.Cache.Commit` | a.yanin/waxy/src/cache.c:710-792 | nothing happens to a committed entry or against a shorter stored one; otherwise the entry displaces the stored one and is the most recent |
| `CacheReaders.ReadersLoseNothing` | a.yanin/waxy/src/cache.c:457-638 | bytes delivered are a prefix of the buffer; end of file on a complete entry means all was delivered; a handle that is behind or untold has a wake-up pending or is being processed, but for the late ones |
| `CacheReaders.UntoldExactlyWhenLate` | a.yanin/waxy/src/cache.c:505-545 | a handle at rest on a complete entry is untold of the end exactly when it was opened on an entry already complete and empty |
| `CacheReaders.LateReaderExists` | a.yanin/waxy/src/cache.c:505-545 | a run with such a handle |
| `CacheReaders.BufferGrows` | a.yanin/waxy/src/cache.c:586-708 | the buffer takes exactly what is written, at its end, until the entry is complete; the state changes once, from partial to complete or invalid, at the word of the writer |
| `CacheReaders.ReadDelivers` | a.yanin/waxy/src/cache.c:613-638 | a read delivers exactly the next unread bytes, as many as there are and fit, and reports the end of file exactly when the entry is no longer partial and nothing is left |
| `CacheReaders.DeliveryGoesOn` | a.yanin/waxy/src/cache.c:457-497 | on a complete entry an open handle that has not got everything can always take a step |
| `CacheReaders.AllIsDelivered` | a.yanin/waxy/src/cache.c:457-638 | on a complete entry, whatever happens beside it, a handle that has taken a number of steps linear in the buffer has received all of it and has been told the end |
| `CacheReaders.StateChangesAreTold` | a.yanin/waxy/src/cache.c:485-493 | a handle that has not heard of a change of state since its creation is about to be called or is being called |
| `CacheReaders.ClosedIsLeftAlone` | a.yanin/waxy/src/cache.c:432-455 | a closed handle is not woken or called again, and nobody else closes a handle |
| `WorkQueueSlots.TextLen` | s.pchelintsev/25/lab25.c:167-174 | the length up to the first zero byte, at most the slot size |
| `WorkQueueSlots.PutThenRead` | s.pchelintsev/25/lab25.c:136-179 | the text read back from a slot is the text put there, whatever the slot held before |
| `WorkQueueSlots.CroppedText` | s.pchelintsev/25/lab25.c:142-144 | a buffer smaller than the text receives its beginning, any other the whole of it |
| `WorkQueueSlots.WriteSlot` | s.pchelintsev/25/lab25.c:159-174 | the copy loop writes the text and its terminator into this slot and touches no other byte |
| `WorkQueueProtocol.StepKeepsInv` | s.pchelintsev/25/lab25.c:70-204 | every step keeps the slot, lock, semaphore and release invariant |
| `WorkQueueProtocol.FifoDelivery` | s.pchelintsev/25/lab25.c:136-179 | the k-th accepted pop hands its caller the message of the k-th accepted put, cropped to the caller's buffer, and at most ten accepted puts are ahead of the pops |
| `WorkQueueProtocol.CallsAreAnswered` | s.pchelintsev/25/lab25.c:70-179 | a thread stays inside its call until it is answered once, the answer is for the call it entered and has the right code, and a call is refused exactly when its thread looks at an invalid queue |
| `WorkQueueProtocol.InvalidateInvalidates` | s.pchelintsev/25/lab25.c:186-204 | whoever comes back from `wqInvalidate`, also by the short cut without the lock, leaves the queue invalid; nothing else makes it so and nothing makes it valid again |
| `WorkQueueProtocol.ZeroMeansRefusedExactlyWhen` | s.pchelintsev/25/lab25.c:136-179 | for every call that has returned, code 0 tells refused from accepted exactly when the call was refused or its message or buffer is not empty |
| `WorkQueueProtocol.EmptyPutLooksRefused` | s.pchelintsev/25/lab25.c:153-179 | a reachable state in which the empty message has been accepted with code 0 |
| `WorkQueueProtocol.SlotsNeverClash` | s.pchelintsev/25/lab25.c:70-179 | a put never overwrites an unread slot and a pop reads the oldest unread message, also for callers who saw the queue valid just before the semaphores were inflated |
| `WorkQueueProtocol.InvalidateReleasesAll` | s.pchelintsev/25/lab25.c:186-204 | once the posts of an invalidation are made each semaphore covers all callers waiting on it and none of them is blocked; every later step, those of further invalidations included, owes no post and counts nobody in |
| `WorkQueueProtocol.NobodyIsStuck` | s.pchelintsev/25/lab25.c:70-204 | after invalidation every thread inside a call can take its next step, or the holder of the lock it wants can |
| `WorkQueueProtocol.CallsRunOut` | s.pchelintsev/25/lab25.c:70-204 | after invalidation every step of a call in progress uses up a bounded amount of work and new calls are refused |
| `UrlDecoding.EncodedDecodes` | a.yanin/waxy/src/url.c:311-317 | what is written for a byte decodes to that byte, and a character outside the set is written as itself |
| `UrlDecoding.PartDecodes` | a.yanin/waxy/src/url.c:311-317 | for every text of bytes and every set, the encoded text decodes to what the text itself decodes to, and to the text itself if that has no percent sign |
| `UrlDecoding.SetsAreAsListed` | a.yanin/waxy/src/url.c:250-309 | the characters of each percent-encode set, one by one |
| `UrlDecoding.SchemeCharsAreAsListed` | a.yanin/waxy/src/url.c:95-113 | the characters a scheme may have, by their codes |
| `UrlDecoding.LowerIsSmall` | a.yanin/waxy/src/url.c:488-495 | a letter becomes the same letter in small, anything else stays |
| `UrlDecoding.NumeralIsRead` | a.yanin/waxy/src/url.c:719-734 | the digits of a port are read as the number whose decimal numeral they are, with leading zeros or without |
| `UrlParser.SpecialPort` | a.yanin/waxy/src/url.c:438-460 | every scheme is special once the port number is taken for a truth value |
| `UrlParser.TurnUsesFuel` | a.yanin/waxy/src/url.c:462-1047 | every turn that stays in the loop uses up fuel, in spite of cursor decrements, the reset to 0, the jump back to the host and wrap-around |
| `UrlParser.Run` | a.yanin/waxy/src/url.c:1097-1172 | the loop ends within the fuel of its first state |
| `UrlParser.Parse` | a.yanin/waxy/src/url.c:1097-1172 | the driver loop terminates on every byte string within `2 * length + 15` turns |
| `UrlParser.TurnKeeps` | a.yanin/waxy/src/url.c:462-1047 | every turn keeps the recorded regions in order and the path and query encoded |
| `UrlParser.RegionsAreSound` | a.yanin/waxy/src/url.c:1097-1188 | without `@`, the regions lie in the buffer in the order scheme, host, path, query, fragment without overlap, and path and query contain no character of their encode sets |
| `UrlParts.PartsComeBack` | a.yanin/waxy/src/url.c:485-1047 | a URL written from well-formed parts is accepted and gives back the scheme in lower case, the host, the port number, and path, query and fragment percent-encoded, each present exactly when written |
| `UrlFiles.FilePartsComeBack` | a.yanin/waxy/src/url.c:747-941 | a `file` URL written from its parts is accepted and gives back the host, empty but not null if none was written, the path without its opening slash and with the colon of an opening drive letter, query and fragment, encoded |
| `UrlDecoding.MeaningComesBack` | a.yanin/waxy/src/url.c:485-1047 | decoded by a decoder of its own, the path, query and fragment of the result are those written, and the written ones themselves if they have no percent sign; the scheme is the same in small letters, the host the same |
| `UrlDecoding.FileMeaningComesBack` | a.yanin/waxy/src/url.c:747-941 | the same for a `file` URL, whose path has the colon of the drive letter it opens with |
| `UrlDecoding.PortComesBack` | a.yanin/waxy/src/url.c:706-745 | the port is the number whose numeral was written |
| `UrlParts.Mends` | a.yanin/waxy/src/url.c:886-891 | what ends a segment changes the pending text only in a `file` URL, for the first segment and for a drive letter, whose second character becomes a colon |
| `UrlParts.AuthorityIsReread` | a.yanin/waxy/src/url.c:627-642 | the authority is read once without keeping it and the cursor jumps back to its first character |
| `UrlParts.RefusedExactlyWhen` | a.yanin/waxy/src/url.c:462-532 | an input without a scheme is fatal exactly when it has two characters or more and begins with a letter |
| `UrlParts.SchemelessAccepted` | a.yanin/waxy/src/url.c:462-532 | three inputs without a scheme that are accepted |
| `UrlVerdict.SwallowedExactlyWhen` | a.yanin/waxy/src/url.c:1097-1172 | for every input, the parser ends in its failure state without a fatal result exactly when a scan of the scheme, the slashes and the authority says so |
| `UrlVerdict.PlainSwallowedExactlyWhen` | a.yanin/waxy/src/url.c:706-745 | without `@` that happens exactly to a single letter and to a scheme other than `file`, a colon, slashes, a host, a colon and digits above 65535 at the end of the input |
| `UrlVerdict.StepKeepsDoom` | a.yanin/waxy/src/url.c:462-1047 | every turn of every state function keeps the answer to the question whether a failure will go unreported |
| `UrlVerdict.UserinfoIsPending` | a.yanin/waxy/src/url.c:599-626 | at an `@` what is pending becomes its encoded form without the first colon |
| `UrlVerdict.NothingBehindAtSign` | a.yanin/waxy/src/url.c:627-632 | an authority `@` or `:@` at the end of the input fails unreported |
| `UrlVerdict.LetterIsSwallowed` | a.yanin/waxy/src/url.c:525-532 | a single letter ends in the failure state and is not reported |
| `UrlVerdict.HighPortIsSwallowed` | a.yanin/waxy/src/url.c:725-729 | so does `h:x:65536` |
| `UrlVerdict.EmptyHostIsSwallowed` | a.yanin/waxy/src/url.c:627-632 | so does `h:@` |
| `UrlVerdict.UserIsNotSwallowed` | a.yanin/waxy/src/url.c:596-643 | `h:a@` does not, because the user information is pending again at the end |
| `UrlUserinfo.UserinfoSpoilsHost` | a.yanin/waxy/src/url.c:577-656 | a URL with a user name that needs no encoding is accepted, and its host is the user name without its first character, the `@` and the host; the region of the name begins at the length of the name |
| `UrlUserinfo.NameIsCounted` | a.yanin/waxy/src/url.c:602-626 | before the first colon every character of the user information is counted for the user name |
| `UrlUserinfo.ColonOpensPassword` | a.yanin/waxy/src/url.c:602-626 | the first colon is dropped and opens the password at the end of the buffer, and all that follows is counted for it |
| `UrlUserinfo.EncodeInTwo` | a.yanin/waxy/src/url.c:602-626 | user information may be cut anywhere and encoded piece by piece |
| `UrlCleaning.RemoveTrailing` | a.yanin/waxy/src/url.c:319-348 | the loops and the move in place leave the text shifted by its leading blanks |
| `UrlCleaning.TrimsExactlyWhen` | a.yanin/waxy/src/url.c:319-348 | that is the text without the blanks at both ends exactly when it has none at its head or nothing but blanks |
| `UrlCleaning.RemoveBreaks` | a.yanin/waxy/src/url.c:350-369 | the loop from the end takes out the tabs and line breaks |
| `UrlCleaning.BreaksGo` | a.yanin/waxy/src/url.c:350-369 | what is left are the characters that are neither, and all of them |
| `UrlCleaning.HalvesAreCleaned` | a.yanin/waxy/src/url.c:350-369 | and they are left in their order |
| `UrlCleaning.LeadingSpaceIsAccepted` | a.yanin/waxy/src/url.c:1053-1172 | a URL behind a space is accepted as one without scheme, host or path |
| `TreeStack.TaskStack.constructor` | r.tolkacheva/lab7/task_stack.c:8-13 | a new stack is empty, with no directory walked and not stopped |
| `TreeStack.TaskStack.Push` | r.tolkacheva/lab7/task_stack.c:58-81 | the chain of nodes from the head down holds the task followed by what it held before |
| `TreeStack.TaskStack.TryPop` | r.tolkacheva/lab7/task_stack.c:83-116 | what the last push put there comes off and the rest of the chain stays; on an empty chain the answer is nothing exactly when stopped or nobody walks, and to wait otherwise |
| `TreeStack.TaskStack.CheckStopped` | r.tolkacheva/lab7/task_stack.c:22-48 | yes exactly when it was said before or no task is on the chain and no directory is walked; the answer is remembered and the chain stays |
| `TreeStack.StepKeepsInv` | r.tolkacheva/lab7/main.c:89-154 | for every weight of the nodes, every step keeps started + in hand + on the stack + still to push equal to the whole tree, and the count equal to the directories not yet left |
| `TreeStack.StoppedMeansDone` | r.tolkacheva/lab7/main.c:265-292 | when `stack_stopped` answers yes every directory and file has been given to a thread exactly once and no thread is left that could touch the stack |
| `TreeStack.StoppedIsFinal` | r.tolkacheva/lab7/task_stack.c:22-48 | after that no step changes the stack, the count or what was started |
| `TreeStack.CountIsWalkers` | r.tolkacheva/lab7/task_stack.c:50-56 | in every reachable state the count is the number of directories announced and not yet left, so the unsigned counter never wraps |
| `TreeStack.TasksMoveAtTheTop` | r.tolkacheva/lab7/task_stack.c:58-116 | a child goes on top of the stack, the dispatcher takes the top, nothing else moves the stack |
| `TreeStack.CanAlwaysFinish` | r.tolkacheva/lab7/main.c:265-292 | from every reachable state the program can still come to its end |
| `LinkedQueue.Queue.constructor` | m.dyagilev/7/queue.c:14-25 | a new queue is empty with size 0 |
| `LinkedQueue.Queue.Link` | m.dyagilev/7/queue.c:27-47 | the value is appended; head and tail are both null or neither, as the asserts demand |
| `LinkedQueue.Queue.Unlink` | m.dyagilev/7/queue.c:64-71 | the first value is handed out and removed, and the tail pointer is cleared with the last one |
| `LinkedQueue.Queue.Push` | m.dyagilev/7/queue.c:27-50 | the value is appended and the size raised |
| `LinkedQueue.Queue.Pop` | m.dyagilev/7/queue.c:53-76 | the first value is handed out and removed and the size lowered |
| `TaskQueueProtocol.StepKeepsInv` | m.dyagilev/7/queue.c:27-75 | every step keeps the task, `expected_tasks` and `size` accounts |
| `TaskQueueProtocol.CountersAreExact` | m.dyagilev/7/lab7.c:315-382 | `expected_tasks` is linked nodes plus children still to push, `size` is completed pushes minus pops and never negative, and `queue_pop` never meets a null head |
| `TaskQueueProtocol.TasksMoveInOrder` | m.dyagilev/7/queue.c:27-76 | a child goes to the end of the queue, the dispatcher takes the front, nothing else moves the queue |
| `TaskQueueProtocol.FinishedMeansDone` | m.dyagilev/7/lab7.c:315-382 | when the loop ends every directory and file has been given to a thread exactly once, the queue is empty and no thread is inside `queue_push` |
| `TaskQueueProtocol.CanAlwaysFinish` | m.dyagilev/7/lab7.c:248-258 | from every reachable state the program can still come to its end |
| `PrintRing.StepKeepsInv` | k.romanov/11/lab11.c:20-43 | every step keeps each thread where it should be for the line that comes next |
| `PrintRing.WantedIsHeld` | k.romanov/11/lab11.c:31-41 | a thread whose turn it is not wants a mutex that the thread before it holds |
| `PrintRing.LinesComeInTurn` | k.romanov/11/lab11.c:20-43 | line k comes from thread k modulo the number of threads, for any number of threads and prints |
| `PrintRing.NeverStuck` | k.romanov/11/lab11.c:20-43 | until all threads are done some thread can step, also while early finishers let go of their last mutex |
| `PrintRing.EverythingIsPrinted` | k.romanov/11/lab11.c:20-43 | a run that can go no further has printed all lines of all threads |
| `PrintRing.StepsRunOut` | k.romanov/11/lab11.c:20-43 | every step uses up one of a fixed number of steps |
| `SeriesSum.NextIsNextOwned` | a.yanin/09/src/main.c:56-60 | the successor of an index is the next index of the same worker |
| `SeriesSum.InitialIsFirstOwned` | a.yanin/09/src/main.c:52-54 | the initial index of a worker is its first one |
| `SeriesSum.OwnedMakeUpTheWhole` | a.yanin/09/src/main.c:52-60 | every index belongs to exactly one worker, so the workers' sums make up the sequential sum |
| `SeriesSum.TimesTaken` | a.yanin/09/src/main.c:236-271 | workers and finalisation together take every index below the final one exactly once and no other, for any stops |
| `SeriesSum.Worker` | a.yanin/09/src/main.c:68-98 | the partial sum is that of the worker's indices below its stop; it looks at the flag at every 1000001st of its own indices and at no other, stops before the limit exactly at the first look that finds it set |
| `SeriesSum.FillGap` | a.yanin/09/src/main.c:264-268 | finalisation adds exactly the worker's indices from its stop to the final one |
| `SeriesSum.RunWorkers` | a.yanin/09/src/main.c:236-247 | every stop is an index of its own worker, a stop below the limit means that the flag was seen there, and the joined sum is that of all workers' indices below their stops |
| `SeriesSum.FarthestStop` | a.yanin/09/src/main.c:252-258 | the final index is the farthest stop |
| `SeriesSum.FillGaps` | a.yanin/09/src/main.c:263-269 | the finalisation replaces what the workers have added up by all indices below the final one |
| `SeriesSum.Compute` | a.yanin/09/src/main.c:236-271 | for every worker count, limit, set of stops and terms, the result is the sequential sum of the first terms, up to the farthest stop when interrupted and up to the limit otherwise |
| `SeriesSum.ResultIsClose` | a.yanin/09/src/main.c:62-66 | the sum of n terms lies within 1/(2n + 1) of every longer one |
| `SeriesSum.TermsPair` | a.yanin/09/src/main.c:62-66 | the terms taken in pairs are 2/(1*3), 2/(5*7), 2/(9*11) and so on |
| `Philosophers.FoodStore.Take` | a.yanin/10/src/main.c:60-73 | while dishes are left the next one is handed out and the store has one less; after the last one the answer is -1 for ever |
| `Philosophers.StepKeepsForks` | a.yanin/10/src/main.c:83-133 | every step keeps each fork with exactly the philosopher whose program counter says so |
| `Philosophers.StepKeepsFood` | a.yanin/10/src/main.c:60-133 | eaten, served and stored dishes always add up to the initial food |
| `Philosophers.NeighboursNeverEatTogether` | a.yanin/10/src/main.c:83-133 | neighbours never eat at the same time |
| `Philosophers.NeverStuck` | a.yanin/10/src/main.c:83-133 | until everyone is done somebody can step |
| `Philosophers.StepDecreases` | a.yanin/10/src/main.c:83-133 | every step lowers a measure |
| `Philosophers.RunsAreBounded` | a.yanin/10/src/main.c:83-133 | the measure of the first state bounds the length of a run |
| `Philosophers.EveryDishIsEaten` | a.yanin/10/src/main.c:60-133 | a run that can go no further has eaten exactly the initial food and left every fork free |

## Left out

- Sockets, files, directory reading, terminals, logging and error plumbing; allocation and thread-creation failures and the clean-up paths behind them.
- The event loop, the HTTP parser and the client, server and upstream halves of a.yanin/waxy; `handler_force` is a pending flag, and `on_read` performs one `cache_rd_read`.
- `quasi_free` and the other destructors.
- UrlParser.RegionsAreSound: inputs with `@` are not covered, because the user information already encoded is popped again with the host; they are covered by termination.
- UrlParts.PartsComeBack: user information, and a port above 65535, are not covered by the round trip; UrlUserinfo says what comes of a user name, and UrlVerdict which of those inputs fail unreported.
- UrlFiles.FilePartsComeBack: a host that looks like a drive letter is not covered by the round trip; it is covered by the region, encoding and termination theorems.
- UrlUserinfo.UserinfoSpoilsHost: user names that need encoding, passwords and what may follow the host are not covered.
- Validation messages that do not stop the parser, `url_eq` and `url_copy`.
- The URL state functions, the locking of the cache, its read handles, the semaphores and the thread steps of the tree copies, the print ring and the philosophers update values, not objects in place; aliasing between their parts is not modelled.
- WorkQueueProtocol.FifoDelivery: what a caller receives is the text in its buffer; the bytes behind the terminator are not modelled.
- LinkedQueue.Queue.Pop: the loop that waits for a size above zero is a step of the protocol; the method is called on a queue that is not empty.
- WorkQueueSlots.WriteSlot: the caller's buffer is a value and has a terminator or fills a slot, as the copy loop demands.
- CacheStore.Cache.Commit: which entry should win a collision is not claimed; the code's choice is modelled. Entries invalidated while listed stay listed, as in the code.
- SeriesSum.ResultIsClose: terms are reals, so floating-point rounding is not modelled; indices do not overflow.
- SeriesSum.Compute: the workers share nothing but the flag, so they are called one after the other, with what each check finds given from outside.
- The interrupt of a waiting `queue_pop` after an error in m.dyagilev/7.
- The remaining labs: introductory ones, other copy programs and the ring buffers over lists that are not part of the repository.
