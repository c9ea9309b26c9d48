# libras: a verified model

libras is a C library for random access storages. A storage takes requests (open, read, write,
delete, stat, close, destroy), hands them to a backend, and is called back by it, either before
the backend's function returns or later. This project models three stateful parts of it and
proves what they keep over whole runs:

- **The request scheduler** (`src/request.c`, `src/storage.c`): the queue of 512 slots, the
  unsigned in-flight counter, the flags, the recursion callback -> dequeue -> run -> callback,
  and who frees what, with the allocator's counters (`src/allocator.c`).
- **The paged RAM storage** (`example/ram.c`): a table of lazily allocated pages that should
  behave as one flat zero-filled byte array.
- **The event emitter** (`src/emitter.c`): a slot table with holes, listeners that expire, and a
  sweep over a length that moves.

Each part is written twice. *Functions on values* (`Protocol`, `Pages`, `FlatStore`,
`Listeners`) say what every C function does to an abstract state; the lemmas are about them.
*Classes* (`Storage.Storage`, `RamStorage.Ram`, `EventEmitter.EventEmitter`) have the C structs'
fields, arrays and loops, and each method is proved to compute the function of the same name.

A scheduler run is any sequence of public calls and late callbacks. The backend is arbitrary: it
says for each request that it is handed whether it calls back at once and with what result, and
calls back any other later, in any order. A request is named by an id. The state also holds a
history: pushes, removals, runs, calls of `done`, invocations of the backend, events, and a trace
of the moments at which a request is started and at which a callback begins and ends.

`Traces` says what a run does in terms of that trace and of nothing that the model computes with:
`Traces.EveryRunTells` gives, for either drain loop, the flags, the requests handed to the
backend, the events, the calls of `done`, the requests in flight and the number of allocations,
and what becomes of every request that is not handed over.

The mutual recursion callback -> dequeue -> run -> callback is measured against a plain recursion
over the waiting requests, `Outcomes.ChainOf`: the head is answered later, or by nobody, or at
once, and in the last case the rest of the queue is next. `Outcomes.CompletionIs` says that the
one computes the other: who leaves the queue, in what order `done` functions are called, which
flags are left, which request is stalled, whether the storage is released.

## The code as written, and repaired

The model keeps the code as it is. Where that code does not do what it is for, a second version
differs in the named lines only, a lemma shows the difference, and another says exactly when the
code as written is right.

| where | as written | repaired | exactly right when |
|---|---|---|---|
| `src/request.c:275-292`, the drain loop | after a data request, takes the next head off and frees it, whatever it is; after a lifecycle request, runs one request and stops (`Departures.CloseAfterWriteFaults`, `Departures.TwoReadsFault`, `Departures.RequestStranded`) | loop while nothing is pending and something waits; requests leave only through their own completion | `AsWritten.VerdictOf`, a recursion over the queue known before the completion: nothing waits; or the next request is not answered at once; or it is, and the verdict on what waits behind it is good in turn. A data request answered at once may have only unsupported requests behind it, an open that fails at most one (`AsWritten.CompletionIff`) |
| `example/ram.c:24-28` | a write discards the pages it touches (`Pages.WriteDiscards`) | the page is kept | the other bytes of those pages were zero (`Pages.WrittenWriteIff`) |
| `example/ram.c:85` | the end of a write is an unsigned int and wraps | the end does not wrap | it is below 2^32 or not beyond the length (`WrittenStore.LengthAgrees`) |
| `example/ram.c:119-136` | memset of `rel + end` bytes, steps of a whole page, absent pages not passed (`WrittenStore.DeleteLeavesTail`) | memset of `end - start` bytes, steps of the bytes covered, every page passed | the memset stays in its page, and the bytes cleared by mistake or not cleared were zero (`Pages.WrittenDeleteIff`); whatever the table holds, for an empty range, or one that starts a page and is shorter than a page or whole pages (`Pages.ManageableIff`) |
| `src/emitter.c:29-41`, `src/emitter.c:57-69` | filling a hole moves the length to it; a hole at slot 0 counts as none (`ListenerRuns.HoleReached`, `ListenerRuns.OnceTwiceReached`) | the hole is filled, the length never shrinks | there is no hole below the length (`Listeners.AddWrittenIff`) |
| `src/emitter.c:98-104` | the trim loop can read below the table (`Listeners.TrimFaults`) | `end > 0` | some listener is not removed (`Listeners.OffWrittenIff`); nothing expires or some listener is not swept away (`Listeners.EmitWrittenIff`) |

Each condition is on the state before the operation. Runs as written are those of the repaired
code, or of the flat array, if and only if every operation in them finds its condition met:
`Synchronous.SoundRunIff`, `WrittenStore.AgreeingRunIff`, `ListenerRuns.SameRunIff`.

A value `Policy`, or a boolean, selects the version. Theorems about runs of the scheduler are
for the repaired drain loop unless they say otherwise. A run of the code as written whose every
completion has a good verdict is a run of the repaired code (`Synchronous.SoundRunIff`), and so
satisfies the same theorems (`Synchronous.SoundRuns`). `Theorems.LifecycleSafety`,
`Theorems.ClosedForGood`, `Calls.CallsAgree`, `StallFreedom.DataCallStallsIff`,
`StallFreedom.StalledForGood`, `Departures.ReleasedUnderClose`, `Synchronous.SynchronousRuns`,
the lemmas of `Traces` and those of `Returns` hold of the code as written without any condition on the drain.

Two more findings are stated for the code as it is, and the repaired drain has them too.

- A data request started on a storage that is not open is never called back
  (`StallFreedom.DataCallStallsIff` says which call does this, `StallFreedom.StalledForGood` that
  nothing undoes it: every later open, close and destroy waits for ever).
- `ras_storage_destroy` can release the storage under a callback that goes on reading it.
  `Outcomes.ReleasedUnderIff` says which completion does this, `Theorems.EveryRun` that no other
  step of a run does, and `Departures.ReleasedUnderOpen` and `Departures.ReleasedUnderClose` give
  runs that get there, from a new storage and from any idle open one.

## Model

| member | source | states |
|---|---|---|
| Theorems.EveryRun | src/request.c:104-384 | over every run against every backend: exclusion, exact counter, single ownership, first-in-first-out, conservation of memory, and idleness once closed, as the six predicates below; and the storage is released under a callback that still reads it if and only if some completion of the run takes a destroy off the queue |
| Theorems.ExclusiveAt | src/storage.c:27-40 | an in-flight lifecycle request is the head, is alone and `pending` is 1; two requests in flight are both data; with nothing pending nothing waits |
| Theorems.CounterExactAt | src/request.c:276-296 | `pending` is the number of requests started and not called back, although the decrement wraps and is clamped for requests marked with an error |
| Theorems.OwnedOnceAt | src/request.c:301-384 | issued requests are waiting, in flight or called back; each called back has had its `done` called once and is freed, each other neither |
| Theorems.InOrderAt | src/storage.c:519-565 | pushes are removals followed by the queue, without repetition; queued requests run in push order |
| Theorems.ConservedAt | src/allocator.c:45-69 | the buffers are those of the stats and of the reads of at least one byte in flight, no more and no less; allocations minus frees are the storage, the requests not called back and these; a storage from `ras_storage_new` is allocated until a destroy is called back and not after; so zero remains once that and all else is called back |
| Theorems.IdleWhenClosedAt | src/request.c:29-31 | once closed, the backend holds no data request |
| Theorems.LifecycleSafety | src/request.c:129-207 | either drain loop, every run: backend open only when not open, close and data only when open and not closed, destroy only before one has taken effect; CLOSE emitted at most once; `needs_open` implies not open |
| Theorems.ClosedForGood | src/request.c:244-258 | either drain loop: after a close has taken effect no later step invokes a data or close operation or emits CLOSE again |
| Traces.EveryRunTells | src/request.c:104-384 | either drain loop, every run: the storage is destroyed (closed) if and only if a destroy (close) has been called back with 0; it needs to be opened if and only if no open has succeeded since the last failed one; it is open if and only if an open has succeeded and since then none has failed and the first successful close has not come; the backend has been handed, in order, exactly the requests started while it offers their operation and the flags allow it; the events are, in order, OPEN or the error for each open when its callback begins unless destroyed, and CLOSE or the error for each close when its callback ends unless closed before it or destroyed; `done` is called for each callback that ends with one; in flight is what has been started and not called back; allocations are one for the storage, each request, each buffer that a stat or a non-empty read needs, and each value a backend allocates; and a request that is answered at once, by its backend or without it, is called back next, with that answer |
| Traces.SettledTell | src/request.c:224-264 | the flags after any completion are those told by the opens, closes and destroys called back so far |
| Traces.RunInvokes | src/request.c:129-209 | either drain loop: a request run without an error mark is handed to the backend, once, if and only if the backend offers the operation (open in read-only form counts) and: open, the storage is not open; close, it is open and not closed; destroy, it is not destroyed; data, it is open and not closed; else it is called back next, data with ENOSYS and the others with 0, or for data on a storage not open or closed it is stalled, with err 1 if not open |
| Traces.CallbackTells | src/request.c:302-384 | any callback, at any depth of the recursion, is told in the same way |
| Traces.RunsRetain | src/storage.c:303-329 | either drain loop, over every run: until it is called back a request keeps its kind and, but for a stat, the size it was issued with |
| HandedOnce.EveryRunOnce | src/request.c:104-384 | repaired, in every run each request is started, handed to the backend and called back at most once |
| Returns.DataCallReturns | src/storage.c:9-25 | either drain loop: a data call returns -ENOSYS if its request is run within the call on a storage that serves it and the backend does not offer the operation, and else 0, also where the request is stalled |
| Returns.DataCallIssues | src/storage.c:14-16 | a data call issues its request, and an open without `done` exactly if the storage needs to be opened and is not open; nothing else; what was issued before is unchanged, and the request has the size asked for |
| Returns.DestroyCallIssues | src/storage.c:126-148 | a destroy call issues a close without `done` and then the destroy, and returns 0 |
| Progress.AllCalledBack | src/request.c:266-296 | however late and in whatever order the backend answers, it has answered all it can after at most as many answers as there are requests not called back; and then all are called back and the storage is idle if and only if none is stalled |
| Progress.AnswersReach | src/request.c:266-296 | from every state between calls such a run of answers can be made |
| Progress.AnswerCloses | src/request.c:302-384 | each answer leaves fewer requests not called back |
| Progress.GentleCompletes | src/request.c:24-41 | in runs without closes and immediate open failures, every request is called back once the backend has answered |
| Steady.CallbackAdvance | src/request.c:302-384 | a completion, with all it sets off, never undoes a close or destroy, only extends the history, and emits CLOSE only if it closes |
| Preservation.RunKeeps | src/request.c:104-210 | running the head or a new data request keeps the whole invariant and leaves nothing waiting for nothing |
| Preservation.CallbackKeeps | src/request.c:302-384 | a completion keeps the whole invariant, in the middle of the recursion as well as between calls |
| Preservation.DrainKeeps | src/request.c:275-292 | the drain keeps the invariant and stops only with a request in flight or an empty queue |
| Preservation.MarkedKeeps | src/request.c:109-111 | a request marked with an error is taken off, called back and released though the counter wraps below zero |
| Invariant.PushKeeps | src/storage.c:549-565 | a push keeps order, ownership and accounting |
| Invariant.StartKeeps | src/request.c:113-117 | starting keeps them; the `before` function's buffer is accounted for |
| Invariant.LeaveKeeps | src/request.c:223-273 | what a completion does to fields, flags, head and counter keeps them |
| Invariant.FinishMemory | src/storage.c:270-290 | whichever of `after` and `needs_free` applies, the request and all it owns are released exactly once |
| Invariant.FinishKeeps | src/request.c:331-384 | `done`, `after` and the release keep the invariant |
| Invariant.TeardownReleases | src/storage.c:90-115 | the `after` function of a destroy releases each request still queued, and the storage, once |
| Runs.LifecycleKeeps | src/storage.c:27-40 | an open, close or destroy call keeps the invariant, and returns 0 even when the backend fails at once |
| Runs.DataKeeps | src/storage.c:9-25 | a data call, with its automatic open, keeps everything that holds between calls |
| Runs.DestroyKeeps | src/storage.c:126-148 | a destroy call, with the close before it, keeps it too, and always gets past the close |
| Runs.RunsKeep | src/request.c:213-299 | every sequence of calls and callbacks keeps it |
| Chains.FailedOpenTellsAll | src/request.c:224-233 | when an open fails, all waiting requests are told in order with its error, none reaches the backend, the queue ends empty and the counter 0 |
| Chains.DrainTells | src/request.c:275-292 | the drain of marked requests tells them in queue order and touches nothing else |
| Outcomes.CompletionIs | src/request.c:213-384 | the recursion behind any completion computes the plain recursion of ChainOf over the waiting requests: what leaves the queue, the order of `done` calls, the flags, the counter, the stalled request and the release of the storage |
| Outcomes.DrainLeads | src/request.c:275-292 | the same of the drain loop |
| Outcomes.DrainUnwinds | src/request.c:328-375 | a chain of synchronous completions calls `done` in exactly the reverse of the order in which requests left the queue; if it contains an open that fails, the requests behind that are told first, in queue order |
| Outcomes.OutOfTurn | src/request.c:224-233 | only an open that fails makes requests leave out of turn, and then the queue ends empty |
| Outcomes.ReleasedUnderIff | src/storage.c:102-112 | a completion releases the storage exactly if it is a destroy or takes a destroy off the queue, a failed open included, and in the second case does so under its own callback |
| Chains.CallbackClean | src/request.c:224-233 | no completion leaves a request waiting with an error |
| StallFreedom.DataCallStallsIff | src/storage.c:14-22 | on every storage between calls, closed ones included, either drain loop: a data call leaves its request stalled exactly when nothing waits and the storage is closed, or not open and not about to be, or refuses to open at once |
| StallFreedom.StalledForGood | src/request.c:33-38 | from then on, over every run and with either drain loop, the request is never called back, the counter stays above zero, no open, close or destroy issued later is run, and the storage is not released |
| StallFreedom.DataCallFlows | src/storage.c:14-22 | in runs without closes a data call stalls exactly when its automatic open fails at once |
| StallFreedom.NeverStalls | src/request.c:24-41 | in runs without close, destroy and such opens no data request is ever started on a storage that is not open |
| StallFreedom.NeverStallsFromNew | src/request.c:24-41 | in particular on a new storage |
| StallFreedom.OpenCallFronts | src/storage.c:187-209 | an open issued while not open ends open, or last in the queue, unless it fails at once |
| AsWritten.CompletionIff | src/request.c:275-292 | for every completion of every request: as written it ends in a fault, or strands requests, or ends well, exactly as the verdict says, which is known from the backend's answers, the flags and the queue before it |
| AsWritten.SoundIffRepaired | src/request.c:277-291 | a completion as written ends without fault and without stranding exactly when it does what the repaired code does |
| AsWritten.DataCompletionIff | src/request.c:286-290 | for a data request this means: something else is in flight or all that waits is unsupported; else it is a fault |
| AsWritten.FailedOpenIff | src/request.c:282-287 | a failed open as written tells the first waiting request only; the others keep its error and wait; well handled if and only if at most one waits |
| AsWritten.DropFaults | src/request.c:289 | once a run in a data drain does not fail, line 289 releases a request that was not called back or wraps `queued` |
| Departures.CloseAfterWriteFaults | src/request.c:286-290 | on every idle open storage: write answered later, close, answer to the write, as written: a fault |
| Departures.TwoReadsFault | src/request.c:286-290 | on every new storage: open answered later, two data calls, the open succeeds and the first data request is answered at once, as written: a fault |
| Departures.RequestStranded | src/request.c:282-284 | on every new storage: open answered later, data call, open fails, as written: the data request has not been told although nothing is in flight; a close then tells it, and is itself left in the queue, called back and never released |
| Departures.NextCallTells | src/request.c:275-284 | as written: the next open or close that is answered at once tells a stranded request, and is stranded in its place |
| Departures.ReleasedUnderOpen | src/storage.c:102-112 | on a new allocated storage: open answered later, destroy call, open fails: the repaired drain releases the storage that it goes on reading |
| Departures.ReleasedUnderClose | src/storage.c:102-112 | on any idle open allocated storage, either drain loop: a destroy call whose close is answered later releases the storage under the close's callback exactly when the destroy is answered at once |
| Departures.NewOpens | src/request.c:235-242 | such a storage is one open call away from a new one |
| Synchronous.SoundRuns | src/request.c:212-299 | runs of the code as written in which every completion has a good verdict have all six properties, and the same exact condition for the release of the storage |
| Calls.CallsAgree | src/storage.c:9-40 | public calls between callbacks never reach the drain loop, so both versions agree on them; and they never release the storage under a callback |
| Calls.RunAlone | src/request.c:104-210 | a request run with nothing behind it goes where its response sends it, whatever the drain loop |
| Synchronous.SoundRunIff | src/request.c:212-299 | a run as written is sound at every step if and only if every completion has a good verdict before it is made, and then it is the run of the repaired code |
| Synchronous.SyncDataIff | src/request.c:33-38 | with a backend that answers at once a data call ends idle exactly when it does not stall; else its request is stalled, and StalledForGood applies |
| Synchronous.SynchronousRuns | test/test.c:169-201 | with such a backend every run of accepted calls, as written or repaired, ends idle with each `done` called once and no request allocated; after a destroy every allocation is freed |
| Protocol.Run | src/request.c:104-210 | never grows the queue, keeps every request's fixed fields, and with nothing left pending has removed the request it ran |
| Protocol.Callback | src/request.c:302-384 | leaves no more in the queue than waited behind the request, and the call stack as it was |
| Protocol.Dequeue | src/request.c:213-299 | the recursion shortens the queue at every level, which bounds its depth |
| Storage.Storage.QueueShift | src/storage.c:520-546 | the array loops drop the first queued request, keep the rest in order and leave null beyond |
| Storage.Storage.QueuePush | src/storage.c:549-565 | the array holds the old queue with the request at its end, in the last slot as well |
| Storage.Storage.Enqueue | src/storage.c:549-565 | on objects: the push computes Protocol.Push |
| Storage.Storage.Run | src/request.c:104-127 | on objects: the new state and the returned code are those of Protocol.Run |
| Storage.Storage.Switch | src/request.c:129-209 | on objects: the branches of the switch compute Protocol.Dispatch |
| Storage.Storage.Callback | src/request.c:302-384 | on objects: computes Protocol.Callback |
| Storage.Storage.Dequeue | src/request.c:213-299 | on objects: computes Protocol.Dequeue and says whether the request was the head |
| Storage.Storage.DrainQueue | src/request.c:275-292 | on objects: the loop, as written or repaired, computes Protocol.Drain |
| Storage.Storage.MarkAll | src/request.c:228-232 | on objects: every queued request gets the error, no other does |
| Storage.Storage.RunAfter | src/storage.c:270-290 | on objects: the `after` functions release what the model releases |
| Storage.Storage.DestroyAfter | src/storage.c:90-115 | on objects: queued requests and the storage are released |
| Storage.Storage.LifecycleCall | src/storage.c:187-256 | on objects: computes Protocol.LifecycleCall |
| Storage.Storage.DataCall | src/storage.c:303-329 | on objects: computes Protocol.DataCall |
| Storage.Storage.DestroyCall | src/storage.c:126-148 | on objects: computes Protocol.DestroyCall |
| FlatStore.RunAgrees | example/ram.c:48-143 | every run of writes, reads and deletes on the repaired pages gives the replies and the bytes of one flat array with a length, up to an operation that would leave the table |
| FlatStore.WriteMeans | example/ram.c:80-104 | of the flat array: a write puts its bytes in its range and nothing else, the length becomes the larger of the old one and the end of the range, and it is a fault exactly if it ends beyond the table |
| FlatStore.ReadMeans | example/ram.c:48-77 | a read gives the bytes of its range, or ENOMEM if it ends beyond the length |
| FlatStore.DeleteMeans | example/ram.c:107-143 | a delete zeroes exactly the bytes of its range below the length, and the length becomes its offset if the range reaches it and stays otherwise |
| WrittenStore.LengthMeans | example/ram.c:85-140 | as written too: the length after a write is the larger of the old one and the end modulo 2^32, after a delete its offset if the range reaches the length |
| FlatStore.RunZeroTail | example/ram.c:87-89 | repaired, no run leaves a non-zero byte at or beyond the length |
| WrittenStore.StepTailIff | example/ram.c:80-143 | as written, an operation keeps zeros beyond the length if and only if: a write does not wrap, or only over zeros; a delete that shortens the storage clears what it should, or that was zero |
| WrittenStore.DeleteLeavesTail | example/ram.c:119-140 | as written, for every page size above 1: one byte written at the start of page 1 and a delete from the end of page 0 leave that byte beyond the length |
| WrittenStore.StepIff | example/ram.c:48-143 | each operation as written gives the reply, the bytes and the length of the flat array if and only if its guard holds before it |
| WrittenStore.AgreeingRunIff | example/ram.c:48-143 | a run as written never departs from the flat array if and only if every operation finds its guard, and then gives the same replies and ends with the same bytes |
| WrittenStore.DeleteConsistent | example/ram.c:119-136 | as written too, a delete leaves every absent page reading as zeros |
| FlatStore.RunInside | example/ram.c:138-140 | if no operation is told to begin beyond the table, the length stays in it, and no read or delete can leave it |
| FlatStore.DeleteLifts | example/ram.c:138-140 | a delete that begins beyond the table lifts the length past it, and a read that the length allows then leaves the table |
| Pages.RepairedWriteIsFlat | example/ram.c:80-104 | for any page size and range the repaired write changes exactly its range |
| Pages.WriteAt | example/ram.c:91-101 | byte by byte, the write as written puts the data in range, zero elsewhere in touched pages, and nothing in other pages |
| Pages.WrittenWriteIff | example/ram.c:24-28 | the write as written is the intended one if and only if the bytes out of range in touched pages were zero |
| Pages.WriteDiscards | example/ram.c:24-28 | as written, a second write into a page loses the first |
| Pages.ReadAfterWrite | example/ram.c:48-104 | as written or repaired, reading the range of a write gives the bytes written |
| Pages.RepairedDeleteIsFlat | example/ram.c:107-143 | the repaired delete zeroes exactly its range |
| Pages.WrittenDeleteIff | example/ram.c:119-136 | on any table the delete as written does the intended delete if and only if it stays in its pages and every byte in the difference of its extent and the range was zero |
| Pages.ManageableIff | example/ram.c:119-136 | the delete as written does the intended delete on every table if and only if the range is manageable |
| Pages.OnesWritten | example/ram.c:91-101 | the table of ones, on which every other range fails, is one write away from any table |
| RamStorage.Ram.Page | example/ram.c:21-37 | the page is there afterwards, zeroed if it was missing or discarded; pages allocated minus freed stay the pages in the table |
| RamStorage.Ram.Write | example/ram.c:80-104 | as written or repaired, the loop over page buffers computes the table, the pages allocated and the new length, wrapped as written; refused exactly where the C code would leave the table |
| RamStorage.Ram.Read | example/ram.c:49-77 | fills the buffer with the flat range or fails with ENOMEM, or is refused where the C code would leave the table; allocates exactly the pages of the range, and changes no byte |
| RamStorage.Ram.DeleteRepaired | example/ram.c:107-143 | the repaired loop computes the clamped delete and the new length, beyond the end and the table too |
| RamStorage.Ram.DeleteAsWritten | example/ram.c:107-143 | the loop as written computes WrittenStep: table, pages present and length; and stops where it would leave a page |
| RamStorage.Ram.Destroy | example/ram.c:146-157 | every page is freed: allocations equal frees and the table is empty |
| Listeners.AddKeeps | src/emitter.c:20-72 | the repaired on and once keep occupied slots below the length |
| Listeners.AddMeans | src/emitter.c:20-44 | repaired, `on` and `once` put the listener into the first free slot and change no other, the length grows only to include it and is returned; on a full table nothing changes and -ENOMEM is returned |
| Listeners.AddWrittenMeans | src/emitter.c:20-44 | as written, a hole at slot 0 puts the listener into two slots, and any other hole makes the table end with it |
| Listeners.OffMeans | src/emitter.c:75-108 | `off` empties the slots with the callback, or if it has none those of the event, changes no other, and the table ends with the last slot that is not blank |
| Listeners.AddWrittenIff | src/emitter.c:28-43 | adding as written is right exactly when there is no hole below the length |
| Listeners.OffWrittenIff | src/emitter.c:75-108 | removing as written is right exactly when something remains |
| Listeners.EmitSweeps | src/emitter.c:137-143 | after an emit no expired listener is left, and exactly the swept ones are gone, although `off` moves the length during the loop |
| Listeners.EmitMeans | src/emitter.c:111-146 | on the table before it: an emit empties the slot of a listener if and only if a `once` listener to the event has the same callback (and none without a callback comes before that one), or one without a callback runs out and the listener is to the event; every other slot is unchanged, so that an `on` listener stays as it was |
| Listeners.SweptByCallback | src/emitter.c:90-96 | when every expired listener has a callback, the swept ones are those that share one, whatever their event |
| Listeners.EmitWrittenIff | src/emitter.c:111-146 | emitting as written is right exactly when, on the table before it, nothing expires by it or some listener is not swept away; else the trim loop leaves the table |
| Listeners.TrimFaults | src/emitter.c:98-104 | on a new emitter any removal, and the emit of a single `once` listener, makes the trim loop read below the table |
| Listeners.FiredCount | src/emitter.c:119-145 | the returned number is the number of slots below the length with matching event, ttl and callback |
| ListenerRuns.RunFair | src/emitter.c:46-72 | in every run of on, once, off and emit, with any events, each `once` registration fires at most once: repaired always, as written if none is stored twice |
| ListenerRuns.OnceFiresOnce | src/emitter.c:46-72 | from a new emitter on, repaired, in every run |
| ListenerRuns.OnceFiresExactly | src/emitter.c:110-146 | a `once` listener that is in the table below the length when its event is emitted fires then, and never again: exactly once |
| ListenerRuns.OnLasts | src/emitter.c:20-44 | repaired, over runs: from its registration on, an `on` listener is invoked exactly once by every emit of its event, up to and with the operation that removes it, and never after that |
| ListenerRuns.OnFiresEach | src/emitter.c:111-133 | the same of a listener that is in the table: until an operation removes it, it stays in its slot as it was |
| ListenerRuns.StepIff | src/emitter.c:20-146 | each operation as written does what the repaired one does if and only if its guard on the table before it holds |
| ListenerRuns.SameRunIff | src/emitter.c:20-146 | a run as written never departs from the repaired one if and only if every operation finds its guard, and then ends as it does |
| ListenerRuns.HoleReached | src/emitter.c:74-108 | on(a), on(b), off(a) on a new emitter leave a hole at slot 0 with a listener behind it |
| ListenerRuns.OnceTwiceReached | src/emitter.c:57-69 | as written, a once(c) after that is invoked twice by the next emit of its event |
| Listeners.OnceFiresTwice | src/emitter.c:57-69 | as written, a `once` added while slot 0 is a hole and listeners follow fires twice at the next emit |
| EventEmitter.EventEmitter.AddListener | src/emitter.c:20-72 | the loop and length updates compute Listeners.Add |
| EventEmitter.EventEmitter.Off | src/emitter.c:75-108 | the loops compute Listeners.Off, or stop where the trim loop leaves the table |
| EventEmitter.EventEmitter.Emit | src/emitter.c:111-146 | the loops compute Listeners.Emit and return the number of invocations |

## Left out

- A backend that calls the same request back twice, or one that it was not handed.
- A backend that, inside an operation, calls back a request other than the one it was handed: an operation answers its own request or nothing.
- Re-entrant callbacks: a `done`, hook or listener that calls back into the same storage or emitter.
- Calls after destroy, calls from several threads, and requests beyond the room of the queue (at most 511 may wait, since shifting a full queue reads past the array) or of the counter (2^31): preconditions of a call.
- Requests of type NONE, and requests that a program builds and queues itself instead of using the storage functions.
- The `hook` of a request, `last_request`, `shared`, offsets and user data: they are passed on or copied and steer nothing.
- Malloc failure, null arguments and the replaceable allocator functions: allocation of a non-zero size succeeds.
- The bytes that reads and writes carry through the scheduler: a request only knows whether it owns a buffer, and whether its value is a buffer of the backend's.
- The state after a fault: where the C code would read or write outside an array or release memory it still uses, the emitter and the RAM storage stop, and the scheduler records the fault and goes on; what is said of a scheduler run as written past a fault (`Theorems.LifecycleSafety`, `Theorems.ClosedForGood`) is said of the model only.
- A read value that is neither null, the request's buffer nor a buffer from `ras_alloc`: the library would free it.
- Storage.Storage.DestroyAfter: also clears the array's slots, which the C code leaves as they are; no slot is in use when a destroy completes.
- RamStorage.Ram.Write: at most 2^32 - 1 bytes of data, since the loop counters are unsigned ints; a page number or a sum of offset and size that does not fit its C type is not modelled; and where a range leaves the table the C code would do part of the work before it does, and the model does none.
- WrittenStore.AgreeingRunIff: operations begin within the table; `FlatStore.DeleteLifts` shows what happens otherwise.
- ListenerRuns.SameRunIff: listeners are registered and events emitted with a non-zero event, since event 0 marks a free slot; `ListenerRuns.RunFair` needs no such restriction.
- Listeners.EmitSweeps: an expired listener without a callback removes every listener to its event, so that a later expired one is gone before its own callback is looked for; Listeners.Swept states this exact set instead of all that share something with an expired listener.
- `example/mmap.c` and `example/thread.c`: foreign calls and threads around the same scheduler.
- `ras_emitter_clear` is a stub; `src/version.c`, the build files and the `ok` dependency hold no state.
