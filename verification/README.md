# A verified model of the tornado event-loop server library

This project models the event loop, the timer queues, the buffered socket stream, the HTTP
connection and request parser, and the base64 codecs of the library, and proves what they keep
over whole runs. `dafny verify dfyconfig.toml` checks it.

Every stateful part appears twice. A *value model* says what one operation does to an immutable
value (`Timers`, `LoopModel`, `StreamModel`, `HttpModel`, `HttpParse`), and the theorems are about
runs of it. A *class* with the fields of the original (`TimeoutQueue`, `TimerQueue`, `IOLoop`,
`Buffer` over an array, `IOStream`, `HTTPHeaders`, `HTTPConnection`, `RequestHandler`) carries out
the same operation step by step, with the loops of the original, and each of its methods is proved
to change the object's abstract value exactly as the value model says, so the theorems hold of the
objects; by `IOStreams.IOStream.OthersKeep` also when several streams share a loop.

| files | what they hold |
|---|---|
| `Common`, `Text` | options, concatenation of sequences, the string operations taken from libraries |
| `Timers`, `TimerQueues` | the timer container: ordered by expiration, unique by a wrapping id; its two classes |
| `LoopModel`, `LoopProofs`, `IOLoop` | callbacks as scripts of calls back into the loop; the accounts every run keeps |
| `LoopTurns` | what one iteration of the loop does, call by call: the callbacks, the timers due, the handlers ready |
| `Buffer` | the sliding-window byte buffer, in place over an array |
| `StreamModel`, `IOStream` | one stream: three read modes, partial writes, connects, interest mask, close |
| `StreamClosed`, `StreamGrows`, `StreamInLoop` | calls on a closed stream, exactly; what only grows; one stream inside a running loop |
| `StreamProofs`, `StreamNotices`, `StreamServed` | wake-ups, callback discipline, notices, which request each chunk answers, the bound on reads |
| `StreamTold`, `StreamCloses` | every notice of an operation, and how often connects, writes and the close are announced; what closes a stream, and what the calls return |
| `StreamBytes`, `StreamReads` | where every byte goes: writes, reads |
| `StreamFill`, `StreamOrder`, `StreamCounted` | the two places a read may land: for one pass, for whole runs, for runs of counted reads |
| `HttpParse`, `HttpRoundTrip` | parsing a request head, and the printer it undoes |
| `HttpModel`, `HttpServer`, `Web` | one connection and the handler answering on it |
| `HttpProofs`, `HttpHead`, `HttpLifecycle` | a response is closed once drained and never sticks; its head is truthful |
| `HttpBodies`, `HttpClosed`, `HttpNotices` | which request bodies can arrive; what asking a closed stream for one does; which member a notice enters |
| `HttpArrival`, `HttpPieces` | a whole request from the client's bytes to the handler: unchanged, and exactly when, however it is split |
| `HttpFill` | when a whole connection is the same wherever its reads land |
| `StreamTwins`, `HttpTwins`, `HttpCoded` | streams and connections that differ in an unread byte the code then loses; exactly which pieces let every request arrive where the code reads |
| `HttpAnswers`, `HttpResponses` | all the bytes a client has been sent when the server closes, and what it reads in them |
| `HttpRefusals`, `HttpServed` | which heads are refused, and what becomes of them; what a dispatched request is answered, by its verb |
| `HttpRuns` | every run of a connection is a run of its stream |
| `HttpEndings` | whether a finished response can come to its close, and which schedules bring it there |
| `HttpFailures`, `HttpSplitting` | runs of a connection from its first read that go wrong; what its pieces and the place of its reads do to it |
| `Base64` | both alphabets: shift arithmetic, table lookup, round trips |

The outside is supplied: what successive `read()`, `write()` and `connect()` calls answer (`Input`,
`Output`, a flag), what epoll answers, whether a socket reports an error and errno with it, which
descriptors a poll reports, and every clock reading. A user callback is a finite script of the calls it
makes; scripts may register further scripts. A failed assertion of the library is the `aborted` flag of the loop, or a precondition
where it guards a stream operation.

## Where the code differs from what was meant

- **Reads land at the wrong end.** `readToBuffer` passes `data()`, the read end of the buffer, to
  `read()` (`tornado/IOStream.cpp:558`), while `extendReadBytes` grows the write end
  (`tornado/Buffer.cpp:57-65`). The parameter `fill` selects `AtReadEnd`, what the code does, or
  `AtWriteEnd`, what the layout in `tornado/Buffer.h:20-25` means. Everything except the order of
  received bytes is proved for both. `StreamFill.CodedPassIsFifoIff` gives the exact condition under
  which the code keeps the order, however the pass ends: it reads nothing, or one chunk into an empty
  buffer. `StreamFill.CodedFlushIsFifoIff` says the same of all a read-until-close delivers, the
  flush of `close()` included. `StreamFill.CodedReadCanBeMisordered` and
  `StreamFill.CodedFlushCanBeMisordered` are concrete failures, and `StreamFill.CodedRunIsMeantRun`
  carries the byte-order theorems over to every run of the code that meets the condition.
  `StreamOrder.CodedReadsAreFifoIff` and, by sizes alone, `StreamCounted.CodedRunIsFifoIff` show over
  whole runs that it has to meet it; a delimiter read on a fresh stream keeps the order for all payloads
  iff it and the read events after it get one chunk at most (`StreamOrder.DelimitedReadsAreFifoIff`).
  For connections `HttpFill.CodedConnectionIsMeant` carries over, and
  `HttpSplitting.LongHeadIsMangled` is a family of requests the code closes upon.
  `HttpCoded.CodedRequestsArriveIff` is exact for a request in pieces: all requests of its size, so cut,
  reach their handler as they were sent iff it comes in one piece of a chunk at most, or its head in one
  such piece and its body in another.
- **Read calls do not look whether the stream is open.** On a closed one they may leave their callback
  stored for good, or post a data notice after the close notice. `StreamClosed.ClosedReadIff` is the
  exact condition for each, and `StreamClosed.ReachableIsSoundIff` for whole runs.
- **`onHeaders` makes such calls** (`tornado/HttpServer.cpp:199-203`): it asks for the body even when
  its own 100-continue answer has just closed the stream, or when the stream closed after its head
  was posted. In the first case the stored callback keeps the connection and the stream, which refer
  to each other, alive (`HttpFailures.ContinueStrandsItsCallback`); in the second the body follows the
  close notice (`HttpFailures.BodyCanFollowTheClose`). `HttpClosed.OnHeadersSoundIff` is exact for one
  call and `HttpClosed.ConnectionIsSoundIff` for a whole connection.
- **An empty response body never closes its connection.** `writeBytes` rejects length zero
  (`tornado/IOStream.cpp:142-143`), so no completion callback is stored. `HttpProofs.FinishIsLiveIff`
  is the exact condition, `HttpProofs.EmptyAnswerNeverCloses` what follows, and
  `HttpFailures.EmptyAnswerHangs` a connection from its accept to there.
- **A descriptor outside the handler table is never called for.** Accepted descriptors are bounded from
  below only (`tornado/TcpServer.cpp:110`); for one beyond the table `addHandler` returns -1
  (`tornado/IOLoop.cpp:23-27`), and where epoll refuses the registration its slot is filled all the same
  (`tornado/IOLoop.cpp:33-41`); `addIOState` ignores both (`tornado/IOStream.cpp:314-319`). What the
  socket does not take at once is then never sent (`HttpFailures.UnregisteredAnswerHangs`).
  `HttpEndings.ResponsesEndIff` is exact: an open, finished, non-empty response can come to its close
  iff the descriptor is in the table and epoll has taken it (the flag `heard`: no event comes without),
  or its completion is queued already; and then every fair schedule brings it there
  (`HttpEndings.FairSchedulesEnd`).
- **Long bodies never arrive.** `onHeaders` accepts a Content-Length up to 102400, but a read pass
  succeeds only if it leaves a whole chunk of room. `HttpBodies.BodyArrivesIff` shows 101376 to be the
  boundary; `HttpFailures.LongPostIsStranded` is about every printed request beyond it.
- **How a request is split can decide whether it is answered.** All that arrives before the head has
  been handed over shares the buffer. `HttpPieces.RequestArrivesIff` is the exact condition on the
  pieces, where reads land as meant; by `HttpSplitting.SplittingMatters` a body of 101376 bytes arrives
  after its head, and not in one piece with it, wherever they land.
- **The codecs read outside their tables** for some signed `char` at or above 128: the encoder for one
  in the second or third position of a group (`tornado/util/comm.cpp:133-134`), the decoder for one
  met before any other foreign character (`tornado/util/comm.cpp:193`). `Base64.EncodableIff` and
  `Base64.ScannableIff` are the exact conditions.
- **The status 506 is looked up past the end of its table** (`tornado/Web.cpp:63`), which has that many
  entries (`tornado/Web.h:23-34`). The length `snprintf` returns is used unchecked, but with any other
  status, a calendar date and the integer widths of the code the head and the error page always fit
  their 256 bytes (`HttpHead.HeadAlwaysFits`).
- **A failed connect is announced with errno** (`tornado/IOStream.cpp:416-422`), which `getSocketError`
  leaves alone when it finds an error (`tornado/Util.h:98-108`); the outcome of an event carries what
  errno holds. The notice says that the connect succeeded exactly if it did, iff errno is not zero after
  a failure (`StreamTold.ConnectNoticeIsTrueIff`).
- **A delimiter or until-close read gives up READ while bytes wait to be written**
  (`tornado/IOStream.cpp:383-411`, `reading()` looks at counted reads only); it regains it once
  nothing is left to write (`StreamProofs.EventsSettleTheMask`).
- **An idle exit leaves the running flag set** (`tornado/IOLoop.cpp:155-159`), so a second `start()`
  refuses (`LoopProofs.IdleExitLeavesNothing`, `IOLoops.IOLoop.Start`).
- **runLoop needs now below the largest 64-bit value**: with an empty queue the next expiration is
  that value (`tornado/TimeoutQueue.cpp:38-41`), so at it the loop guard never fails
  (`LoopProofs.GuardAlwaysHoldsIff`).
- `erron` in `tornado/IOStream.cpp:571` is a misspelt `errno`; that branch is read as would-block.

## Model

| member | source | states |
|---|---|---|
| Timers.AddInserts | tornado/TimeoutQueue.cpp:24-34 | an add keeps order and uniqueness and inserts exactly one event, unless its id is taken, when it inserts none |
| Timers.EraseRemoves | tornado/TimeoutQueue.cpp:43-45 | an erase removes the event with that id, if there is one, and nothing else |
| Timers.SoonestIsMinimum | tornado/TimeoutQueue.cpp:38-41 | the next expiration is attained and is a lower bound of the queue |
| Timers.DueSplits | tornado/TimeoutQueue.cpp:51-54 | taking the due events splits the queue exactly at now, in order, losing nothing |
| Timers.WrappingIdsStayFresh | tornado/shm/container.hpp:496-503 | over every run the k-th add proposes id 1 + k mod (ids - 1); it takes effect iff no live timer has that residue, which holds when all were added within the last ids - 2 adds |
| Timers.RunTracks | tornado/shm/container.hpp:496-524 | over every run of adds, erases and expiries each live id is tied to the one add that made it |
| TimerQueues.InsertAgrees | tornado/TimeoutQueue.h:99-109 | inserting keeps the index by id and the index by expiration in step, and is the abstract add |
| TimerQueues.EraseAgrees | tornado/TimeoutQueue.h:99-109 | erasing through the id index keeps both indexes in step |
| TimerQueues.EraseThroughAgrees | tornado/TimeoutQueue.h:99-109 | erasing a front range of the expiration index keeps both indexes in step |
| TimerQueues.TimeoutQueue.Add | tornado/TimeoutQueue.cpp:24-34 | the object does the abstract add, skipping id zero and wrapping at 64 bits, and returns the proposed id |
| TimerQueues.TimeoutQueue.Erase | tornado/TimeoutQueue.cpp:43-45 | returns true iff the id was present, and removes just that event |
| TimerQueues.TimeoutQueue.TakeDue | tornado/TimeoutQueue.cpp:48-54 | moves exactly the due events out, in order |
| TimerQueues.TimerQueue.Add | tornado/shm/container.hpp:496-503 | the shared-memory add, wrapping at 32 bits |
| TimerQueues.TimerQueue.Erase | tornado/shm/container.hpp:505-508 | the shared-memory erase, true iff the id was present |
| TimerQueues.TimerQueue.GetExpirationTimer | tornado/shm/container.hpp:516-524 | appends exactly the due timers, conserves the rest, and returns an expiration beyond now that is their minimum |
| LoopModel.RunOnceLightens | tornado/TimeoutQueue.cpp:50-71 | each pass uses up one unit of the script weight per event fired, whatever its callbacks re-add: why runLoop ends |
| LoopModel.RunLoopStep | tornado/TimeoutQueue.cpp:50-71 | while something is still due runLoop goes round again, on a strictly lighter queue |
| LoopProofs.ExecKeeps | tornado/IOLoop.h:69-82 | any call a callback makes keeps every account of the loop, in the middle of any batch |
| LoopProofs.RunCmdsKeeps | tornado/TimeoutQueue.h:65-69 | so does a whole re-entrant callback |
| LoopProofs.RunTasksKeeps | tornado/IOLoop.cpp:130-140 | at every point callbacks run, the rest of the swapped batch and callbacks pending make up the posting order |
| LoopProofs.BatchRunsInOrder | tornado/IOLoop.cpp:130-140 | a batch runs once each in order, and what it posts waits behind for the next iteration |
| LoopProofs.FireAllKeeps | tornado/TimeoutQueue.cpp:64-68 | firing a batch conserves every event ever added and fires none early |
| LoopProofs.RunOnceKeeps | tornado/TimeoutQueue.cpp:47-72 | one pass of runInternal keeps all accounts |
| LoopProofs.RunLoopKeeps | tornado/TimeoutQueue.h:61-79 | so does runLoop, however often it goes round |
| LoopProofs.RunOnceIsExact | tornado/TimeoutQueue.h:61-79 | runOnce fires exactly the events due at entry, in expiration order, whatever callbacks add or erase, and the queue it leaves has the minimum it returns |
| LoopProofs.BatchMembersCannotBeErased | tornado/TimeoutQueue.cpp:51-68 | erasing a member of the firing batch is refused and changes nothing |
| LoopProofs.ExactlyOneFate | tornado/TimeoutQueue.cpp:24-72 | until the 64-bit counter wraps, every event ever added is once, in exactly one place: pending, firing, fired or erased; an erased one never fires |
| LoopProofs.RunLoopLeavesNothingDue | tornado/TimeoutQueue.h:65-79 | runLoop ends with nothing due and has fired all that was due at entry |
| LoopProofs.GuardAlwaysHoldsIff | tornado/TimeoutQueue.cpp:69-70 | the guard of runLoop holds for every queue of 64-bit expirations, the empty one included, iff now is the largest 64-bit value or beyond |
| LoopProofs.OnePassSuffices | tornado/TimeoutQueue.h:65-79 | when every re-add is strictly in the future, runLoop is runOnce |
| LoopProofs.DispatchKeeps | tornado/IOLoop.cpp:178-194 | dispatching keeps the accounts, whatever handlers add or remove in the same batch |
| LoopProofs.TurnsKeep | tornado/IOLoop.cpp:127-195 | the accounts hold after any number of iterations: handler count equals occupied slots, posting order, timer conservation |
| LoopProofs.PostsAndHoldsKeeps | tornado/IOStream.cpp:307-326 | work that only posts callbacks and changes one descriptor's slot, as a stream's does, keeps every account, in the middle of any batch |
| LoopProofs.IdleExitLeavesNothing | tornado/IOLoop.cpp:154-159 | an idle exit leaves no handler, every posted callback run in order, every timer fired or erased; the running flag stays set |
| LoopProofs.PollTimeoutIsSafe | tornado/IOLoop.cpp:161-173 | the sleep is the least of a minute and the times to the pending expirations, and zero iff there is work |
| LoopTurns.ScriptDoes | tornado/IOLoop.h:69-82 | a whole callback posts exactly the tasks it names, in order, asks for as many timers, and leaves the loop running iff it was and is not told to stop |
| LoopTurns.ScriptSlots | tornado/IOLoop.cpp:21-85 | and each slot of the table holds what the last call naming its descriptor put there |
| LoopTurns.ExecAddsTimer | tornado/IOLoop.h:69-72 | until the counter wraps a timer asked for is added once, with its time, its callback and the next id |
| LoopTurns.ExecErasesTimer | tornado/IOLoop.h:74-77 | a pending timer that is removed leaves the queue, alone, and is on record as erased |
| LoopTurns.TurnIsExact | tornado/IOLoop.cpp:127-194 | one iteration, whatever its callbacks do: exactly the callbacks posted before it run, in order; then exactly the timers pending after that and due fire, in order; it stops iff some of these calls stop it, ends iff nothing is left, and otherwise calls the handler of each ready descriptor whose slot is occupied when its turn comes, in order, and no other |
| LoopTurns.ReadyHandlersAnswer | tornado/IOLoop.cpp:178-194 | handlers that post and remove: the callbacks left waiting are those posted before the poll, then what the handlers of the ready list post, in its order, none for a slot an earlier one emptied |
| LoopTurns.DueTimersAreDone | tornado/IOLoop.cpp:142-145 | after an iteration every timer added before it and due by its clock has fired or been erased |
| LoopTurns.RemovedNeverFires | tornado/IOLoop.h:74-77 | a pending timer that is removed never fires, over any number of iterations |
| LoopTurns.PollsAreSafe | tornado/IOLoop.cpp:117-197 | over a whole run of start() there is one poll for each iteration that goes on, each given the least of a minute and the times to what is pending then |
| IOLoops.IOLoop.AddCallback | tornado/IOLoop.h:79-82 | posts at the back of the queue |
| IOLoops.IOLoop.AddTimeout | tornado/IOLoop.h:69-72 | adds a timer delay after now and records it |
| IOLoops.IOLoop.RemoveTimeout | tornado/IOLoop.h:74-77 | true iff the timer was pending, which it then no longer is |
| IOLoops.IOLoop.AddHandler | tornado/IOLoop.cpp:21-42 | registers in range with ERROR added and counts it, whatever epoll answers, and returns that answer, or -1 out of range; an occupied slot is the failed assertion |
| IOLoops.IOLoop.UpdateHandler | tornado/IOLoop.cpp:45-59 | changes only the mask of a registered slot and returns what epoll answers, or -1 out of range |
| IOLoops.IOLoop.RemoveHandler | tornado/IOLoop.cpp:62-85 | empties an occupied slot, uncounts it and returns what epoll answers; 0 for a free slot and -1 out of range, changing nothing |
| IOLoops.IOLoop.Invoke | tornado/IOLoop.cpp:136-139 | running a callback has the effect of its calls, in order |
| IOLoops.IOLoop.RunPosted | tornado/IOLoop.cpp:130-140 | swaps the queue out and runs it, with the accounts holding between any two callbacks |
| IOLoops.IOLoop.FireBatch | tornado/TimeoutQueue.cpp:64-68 | fires the moved-out events in order, with the accounts holding between any two |
| IOLoops.IOLoop.RunTimeouts | tornado/TimeoutQueue.cpp:47-72 | runInternal: one pass, or passes until nothing is due, returning the next expiration |
| IOLoops.IOLoop.ComputePollTimeout | tornado/IOLoop.cpp:161-173 | the poll timeout that PollTimeoutIsSafe is about |
| IOLoops.IOLoop.DispatchReady | tornado/IOLoop.cpp:178-194 | each ready descriptor goes to the handler registered at that moment: the dispatch TurnIsExact is about |
| IOLoops.IOLoop.OneTurn | tornado/IOLoop.cpp:127-194 | the iteration TurnIsExact is about: callbacks, due timers, the two exits, and only then a poll, with the timeout computed in that state |
| IOLoops.IOLoop.Start | tornado/IOLoop.cpp:117-197 | refuses when running; otherwise does the iterations, keeping the accounts, hands the poll the timeout due in each, and stays marked running after an idle exit |
| Buffers.AppendIsFifo | tornado/Buffer.cpp:33-75 | compaction keeps the unread bytes and gathers all room at the end; an append puts its bytes after them |
| Buffers.TakeIsFifo | tornado/Buffer.cpp:79-94 | what is taken, then what is left, is what was there |
| Buffers.MeantFillIsFifo | tornado/Buffer.h:20-25 | filling at the write end appends |
| Buffers.CodedFillOverlays | tornado/IOStream.cpp:558 | filling at the read end puts the new bytes over the oldest unread ones |
| Buffers.CodedFillIsFifoIffEmpty | tornado/IOStream.cpp:558 | a fill at the read end keeps the order for all payloads iff nothing was unread |
| Buffers.FindFromIsFirst | tornado/Buffer.cpp:97-104 | the index found is a match and no earlier one is; none is missed |
| Buffers.FindIsStable | tornado/Buffer.cpp:97-104 | bytes that arrive later never change the first match |
| Buffers.Buffer.MakeSpace | tornado/Buffer.cpp:67-75 | slides the unread bytes to the front of the array in place |
| Buffers.Buffer.EnsureWritableBytes | tornado/Buffer.cpp:42-55 | succeeds iff the capacity allows, compacting only when needed |
| Buffers.Buffer.Append | tornado/Buffer.cpp:33-40 | appends all or nothing |
| Buffers.Buffer.ExtendReadBytes | tornado/Buffer.cpp:57-65 | moves the write end, or refuses without change |
| Buffers.Buffer.ReadBytesToString | tornado/Buffer.cpp:79-86 | hands out the first unread bytes, or refuses without change |
| Buffers.Buffer.ReadBytes | tornado/Buffer.cpp:88-94 | drops the first unread bytes, or refuses without change |
| Buffers.Buffer.Search | tornado/Buffer.cpp:97-104 | the index of the first match in the unread bytes, or -1 |
| StreamTold.StepTells | tornado/IOStream.cpp:45-448 | all one operation tells, in order: of the connect if an event finds one pending, then data, then the end of a write, then on closing the last data and the close; each to the callback stored for it, which is then forgotten |
| StreamTold.EventsTell | tornado/IOStream.cpp:329-436 | an event on an open connecting stream: its first notice tells the connect callback errno if there was an error, else zero; with an error the stream is closed, without one it is connected |
| StreamTold.ConnectsAreToldOnce | tornado/IOStream.cpp:97-129 | over any run no more connects are announced than were made with a callback |
| StreamTold.ConnectIsTold | tornado/IOStream.cpp:414-436 | over any run a connect is announced to its callback exactly once if an event follows while the stream is open, and never if it closes before |
| StreamTold.ConnectNoticeIsTrueIff | tornado/IOStream.cpp:416-422 | the notice says that the connect succeeded exactly if it did, iff errno is not zero after a failure |
| StreamTold.CloseIsToldOnce | tornado/IOStream.cpp:45-94 | over any run the close callback set is told once, if the stream closes, and not otherwise |
| StreamTold.WriteIsToldOnce | tornado/IOStream.cpp:135-196 | over any run a write callback is told at most once; on an open stream it has been told, or waits with bytes unsent and WRITE asked for |
| StreamCloses.EventsCloseIff | tornado/IOStream.cpp:329-412 | an event closes an open stream iff the connect failed, a read ended other than by blocking or left no room, a write broke, or the event reports an error |
| StreamCloses.ReadsAnswer | tornado/IOStream.cpp:198-305 | the code each read call returns, and exactly when it closes the stream |
| StreamCloses.WritesAnswer | tornado/IOStream.cpp:135-196 | the code writeBytes returns, and exactly when it closes the stream |
| StreamProofs.ReadPassTakesAll | tornado/IOStream.cpp:522-587 | a pass succeeds iff the socket ends by blocking and all it offered leaves a chunk of room; it then took exactly all of it |
| StreamProofs.MeantPassIsFifo | tornado/IOStream.cpp:522-587 | under the meant fill a pass appends what it received |
| StreamProofs.WritePassIsFifo | tornado/IOStream.cpp:591-627 | the bytes handed to the socket, then those left, are those that were buffered |
| StreamProofs.CloseKeeps | tornado/IOStream.cpp:45-95 | close leaves a deregistered stream that retains no callback, its close notice posted last |
| StreamProofs.ConnectKeeps | tornado/IOStream.cpp:98-129 | a connect waits for WRITE, a failed one closes |
| StreamProofs.JustWriteKeeps | tornado/IOStream.cpp:182-196 | accepted iff open, non-empty and there is room; rejected without change, or by closing when there is none |
| StreamProofs.WriteKeeps | tornado/IOStream.cpp:138-179 | after writeBytes unsent bytes imply WRITE interest, and a stored write callback has unsent bytes |
| StreamProofs.ReadsKeep | tornado/IOStream.cpp:198-305 | the three read calls, on an open stream, keep wake-ups, one read mode, callbacks, and the bound on buffered bytes |
| StreamProofs.EventsSettleTheMask | tornado/IOStream.cpp:329-412 | handleEvents leaves WRITE iff bytes are unsent and READ iff a counted read waits or nothing is unsent |
| StreamProofs.StepKeeps | tornado/IOStream.cpp:45-445 | every operation keeps no-lost-wake-up, callback discipline, close-last and the read bound, where reads, connects and close callbacks find the stream open |
| StreamProofs.ReachableIsSound | tornado/IOStream.cpp:24-638 | all of that in every reachable state of such runs, under either fill: slot registered iff state non-zero, with that mask; one read mode; nothing retained once closed |
| StreamClosed.ClosedReadIff | tornado/IOStream.cpp:198-305 | a read call on a closed stream retains no callback iff it is no read-until-close and has none or is answered at once; the close notice stays last iff it posts nothing or there was none |
| StreamClosed.NothingOffered | tornado/IOStream.cpp:550-578 | when the descriptor offers no bytes, only what is buffered can answer such a call |
| StreamClosed.StepSoundIff | tornado/IOStream.cpp:45-445 | every call the assertions permit, on a stream open or closed, keeps it sound iff the call is harmless: a condition on the call, its callback and what is buffered |
| StreamClosed.RunSoundIff | tornado/IOStream.cpp:24-638 | over any permitted run harmless calls keep the stream sound, and once a read has harmed it it stays so |
| StreamClosed.ReachableIsSoundIff | tornado/IOStream.cpp:24-638 | over any permitted run, reads of closed streams included, the stream is sound at the end iff every call that found it closed was harmless |
| StreamInLoop.AllHappenJoined | tornado/IOLoop.cpp:127-195 | a stream and its loop, in any interleaving of their steps, keep the accounts, the stream's soundness and the place of each notice in the posting order |
| StreamInLoop.ClosesLast | tornado/IOStream.cpp:83-87 | a notice that has run, ran after all the stream posted before it; once the close callback has run, every data, connect and write callback had run before |
| StreamInLoop.LoopWatchesTheStream | tornado/IOStream.cpp:307-326 | as long as nobody else uses its descriptor, in any interleaving of a stream and its loop, an open stream is watched for exactly the mask of its state, and not at all when that is zero |
| StreamGrows.StepGrows | tornado/IOStream.cpp:45-519 | an operation takes back no notice, request or byte, reopens nothing, and asks for exactly what its read call asks for |
| StreamBytes.JustWriteForward | tornado/IOStream.cpp:182-196 | a refused append leaves no partial payload; an accepted one is taken whole |
| StreamBytes.EventsForward | tornado/IOStream.cpp:329-412 | handleEvents sends in order and nothing while a connect is outstanding |
| StreamBytes.StepForward | tornado/IOStream.cpp:138-196 | every operation keeps accepted == sent ++ buffered, sends nothing on a closed or connecting stream, and takes nothing back |
| StreamBytes.WritesAreFifo | tornado/IOStream.cpp:138-196 | over any run accepted == sent ++ buffered, and sent only grows |
| StreamReads.ServeConserves | tornado/IOStream.cpp:198-283 | the sequential reading of requests from a byte string loses none of it |
| StreamReads.ServeGrows | tornado/IOStream.cpp:198-283 | bytes that arrive later never change what was already served |
| StreamReads.ExtractServes | tornado/IOStream.cpp:448-519 | what handleRead hands over is what its pending request is due from the buffer |
| StreamReads.RunFaithful | tornado/IOStream.cpp:198-587 | in every reachable state (meant fill) the consumed chunks are those the sequential reading yields, with nothing deliverable held back |
| StreamReads.ReadsAreSequential | tornado/IOStream.cpp:198-283 | counted and delimiter reads deliver what serving them one by one from the received bytes yields, and buffer the rest; a prefix of it once closed (meant fill) |
| StreamReads.FragmentationDoesNotMatter | tornado/IOStream.cpp:448-587 | two runs with the same requests and received bytes deliver the same chunks as far as both went, one ahead only of a closed one, however reads were split and whichever path served them (meant fill) |
| StreamReads.NothingReceivedIsLost | tornado/IOStream.cpp:54-71 | received == consumed ++ buffered always; a read-until-close, with what close flushes, delivers every byte (meant fill) |
| StreamFill.PassesAgree | tornado/IOStream.cpp:550-587 | one chunk into an empty buffer lands in the same place under both fills |
| StreamFill.CodedPassIsFifoIff | tornado/IOStream.cpp:550-587 | the code keeps the order for all payloads of a pass, however it ends, iff it read nothing, or one chunk on an empty buffer |
| StreamFill.UntilCloseDelivers | tornado/IOStream.cpp:495-517 | whether its pass succeeds or fails, a read-until-close delivers all that is then buffered, as it lies |
| StreamFill.CodedFlushIsFifoIff | tornado/IOStream.cpp:54-71 | what a read-until-close delivers under the code's fill, flush included, is in order for all payloads of a pass iff it read nothing, or one chunk on an empty buffer |
| StreamFill.CodedFlushCanBeMisordered | tornado/IOStream.cpp:54-71 | a fresh stream that reads "a", then "b", then the end of the stream delivers something else |
| StreamFill.CodedReadCanBeMisordered | tornado/IOStream.cpp:558 | a fresh stream that reads "a" then "b" for a two-byte request delivers something else |
| StreamFill.CodedRunIsMeantRun | tornado/IOStream.cpp:522-587 | a run that reads at most one chunk into an empty buffer each pass is the same under both fills |
| StreamFill.PassOrCloseIsMade | tornado/IOStream.cpp:285-305 | the first pass of a read-until-close delivers what one pass, flushed by close when it fails, does |
| StreamFill.PassOrCloseIsServed | tornado/IOStream.cpp:329-361 | and so does every read event while it is pending |
| StreamOrder.HarshTurnSpoils | tornado/IOStream.cpp:550-587 | whatever is asked for, a pass that reads more than one chunk, or into a buffer with unread bytes, misplaces a byte for some payload of its shape |
| StreamOrder.CodedReadsAreFifoIff | tornado/IOStream.cpp:198-587 | for every shape of a run of counted and delimiter reads and read events whose passes find room: the code has, at its end, delivered and holds what it received in order, for all payloads, permitted or not, iff for all of them every pass reads nothing, or one chunk into an empty buffer |
| StreamOrder.DelimitedReadsAreFifoIff | tornado/IOStream.cpp:241-283 | a delimiter read on a fresh stream and the read events after it, every such run being permitted: in order for all payloads iff no more than one chunk is read in all |
| StreamCounted.CodedRunIsFifoIff | tornado/IOStream.cpp:522-587 | for counted reads and read events sizes alone decide: in order for all payloads iff every pass reads nothing, or one chunk into an empty buffer |
| StreamNotices.ReadsReachTheirCallbacks | tornado/IOStream.cpp:206-221 | over any run every consumed chunk whose request had a callback is posted to it, once, in order, and no other read notice is posted |
| StreamServed.RequestsAreAnsweredInTurn | tornado/IOStream.cpp:198-519 | over any run and either fill chunk i answers request i with what it asked for (so many bytes, or up to the first delimiter) and to its own callback; only a final read-until-close gets more than one, and an open stream is behind by the pending request alone |
| StreamServed.StepOwed | tornado/IOStream.cpp:45-519 | every operation keeps that account |
| StreamServed.ReadUntilCloseGetsTheRest | tornado/IOStream.cpp:54-71 | over any run the chunks after a read-until-close call are the buffer at that moment and every byte received since, all of them to its callback (meant fill) |
| StreamNotices.OversizedReadStarves | tornado/IOStream.cpp:198-239 | a counted read above the capacity less one chunk starts out pending |
| StreamNotices.OversizedReadNeverCompletes | tornado/IOStream.cpp:522-587 | and over any run stays pending with nothing more consumed |
| StreamNotices.CountedReadCompletesIff | tornado/IOStream.cpp:198-239 | some socket and some run complete a counted read iff it asks for no more than the capacity less one chunk |
| IOStreams.IOStream.constructor | tornado/IOStream.cpp:24-37 | a fresh stream, unregistered, with empty buffers that begin at the start of their arrays |
| IOStreams.IOStream.KeepsLoopAccounts | tornado/IOStream.cpp:45-445 | so every stream operation keeps the accounts of its loop: handler count, posting order, timers |
| IOStreams.IOStream.OthersKeep | tornado/IOStream.cpp:45-445 | an operation of a stream leaves any other stream of the loop, at another descriptor or closed, with buffers of its own, valid and with the same value |
| IOStreams.IOStream.Close | tornado/IOStream.cpp:45-95 | flushes a read-until-close, empties its slot in the loop's own table, posts the close notice, forgets all callbacks; idempotent |
| IOStreams.IOStream.AddIOState | tornado/IOStream.cpp:307-326 | registers or widens the interest whatever epoll answers, never on a closed stream, touching no other slot |
| IOStreams.IOStream.ConnectWith | tornado/IOStream.cpp:98-129 | the connect step of the value model, its callback kept only on success |
| IOStreams.IOStream.SetCloseCallback | tornado/IOStream.cpp:132-135 | replaces the close callback and nothing else |
| IOStreams.IOStream.JustWriteBytesToBuff | tornado/IOStream.cpp:182-196 | the buffering step of the value model, with its return codes |
| IOStreams.IOStream.WriteBytes | tornado/IOStream.cpp:138-166 | the writing step of the value model, with its return codes |
| IOStreams.IOStream.WriteBytesWith | tornado/IOStream.cpp:168-179 | the same, keeping the callback only when it succeeds |
| IOStreams.IOStream.ReadBytes | tornado/IOStream.cpp:198-239 | the counted read of the value model, with its return codes |
| IOStreams.IOStream.ReadUntil | tornado/IOStream.cpp:241-283 | the delimiter read of the value model, with its return codes |
| IOStreams.IOStream.ReadUntilClose | tornado/IOStream.cpp:285-305 | the read-until-close of the value model |
| IOStreams.IOStream.HandleRead | tornado/IOStream.cpp:448-519 | a pass, then what the pending request is due |
| IOStreams.IOStream.ReadToBufferLoop | tornado/IOStream.cpp:522-546 | the loop of reads is one pass: its outcome, the buffer it leaves, the bytes it took |
| IOStreams.IOStream.ReadToBuffer | tornado/IOStream.cpp:550-587 | one read is the first step of a pass, and what remains is the rest of it |
| IOStreams.IOStream.WriteLoop | tornado/IOStream.cpp:594-627 | the loop of writes is one pass: its outcome, the buffer it leaves, the bytes it sent |
| IOStreams.IOStream.HandleWrite | tornado/IOStream.cpp:591-638 | a write pass, then the completion notice iff the buffer is drained |
| IOStreams.IOStream.HandleConnect | tornado/IOStream.cpp:414-436 | tells the connect callback once, and closes on an error |
| IOStreams.IOStream.HandleEvents | tornado/IOStream.cpp:329-412 | the event step of the value model: connect, read, write, error, mask, in that order |
| Text.JoinSplit | tornado/HttpServer.cpp:240 | the pieces of a split hold no separator and lose nothing |
| Text.SplitJoin | tornado/HttpServer.cpp:240 | splitting undoes joining |
| Text.SplitLength | tornado/HttpServer.cpp:240 | a text is split into one piece more than it holds separators |
| Text.FindCrlfFinds | tornado/HttpServer.cpp:18 | the CRLF found is one, and the first |
| HttpParse.LinesPartition | tornado/HttpServer.cpp:13-34 | scanning cuts the text at every CRLF: no line holds one, nothing is lost but the unterminated tail |
| HttpParse.HeadersFailIff | tornado/HttpServer.cpp:46-78 | header lines are refused iff one has no colon or continues no key, whatever the others are |
| HttpParse.PairsParseIff | tornado/HttpServer.cpp:313-331 | key=value items are taken iff every one of them, trimmed or not, holds exactly one '=' |
| HttpParse.TargetParsesIff | tornado/HttpServer.cpp:258-280 | a target is taken iff it holds at most one '?', with only such items behind it |
| Text.TrimIs | tornado/HttpServer.cpp:46-78 | trimming takes away all white space at both ends and nothing else |
| HttpParse.LineBinds | tornado/HttpServer.cpp:46-78 | every line with a colon binds what is before the first to what is after it, trimmed |
| HttpParse.LineContinues | tornado/HttpServer.cpp:46-78 | a continuation adds one space and its text to the latest field |
| HttpParse.RequestCodeSays | tornado/HttpServer.cpp:226-291 | each error code is returned exactly for its failure, the first one there is |
| HttpParse.RequestParsesIff | tornado/HttpServer.cpp:226-291 | a head is accepted iff it has a CRLF, a start line of three items with a version and such a target, no malformed header line, and a Cookie field of such items |
| HttpRoundTrip.ParsePrint | tornado/HttpServer.cpp:226-291 | parsing a printed head succeeds and recovers verb, path, query, version, arguments, unfolded fields and cookies, the last binding winning |
| HttpRoundTrip.FieldsParse | tornado/HttpServer.cpp:46-78 | folded fields come back with their continuations joined by one space (section 3.2.4 of RFC 7230) |
| HttpRoundTrip.TargetParses | tornado/HttpServer.cpp:258-280 | a printed target gives back path, query and argument map |
| HttpRoundTrip.CookieFacts | tornado/HttpServer.cpp:80-104 | printed cookies give back their map |
| HttpRoundTrip.HeadEndsFirst | tornado/HttpServer.cpp:172 | the delimiter startRun asks for is met first at the end of a printed head, whatever follows it |
| HttpServers.CollectPairs | tornado/HttpServer.cpp:313-331 | the item loop binds in order, the last one winning, and stops at the first malformed item |
| HttpServers.HTTPHeaders.ParseLine | tornado/HttpServer.cpp:46-78 | one line as a field, a continuation, or refused with its code |
| HttpServers.HTTPHeaders.ParseCookies | tornado/HttpServer.cpp:80-104 | the Cookie field into the cookie map, refused at a malformed item |
| HttpServers.HTTPHeaders.Parse | tornado/HttpServer.cpp:13-43 | the in-place scanning loop is the fold of parseLine over the non-empty lines, then the cookies |
| HttpServers.HTTPConnection.StartRun | tornado/HttpServer.cpp:168-177 | installs the close callback and asks for the head |
| HttpServers.HTTPConnection.ParseTarget | tornado/HttpServer.cpp:258-280 | the target into path, query and arguments, with its codes |
| HttpServers.HTTPConnection.ParseHttpRequest | tornado/HttpServer.cpp:226-291 | the head into the request, with every error code |
| HttpServers.HTTPConnection.OnHeaders | tornado/HttpServer.cpp:180-208 | dispatches, asks for the body, or closes |
| HttpServers.HTTPConnection.OnRequestBody | tornado/HttpServer.cpp:210-224 | dispatches, or closes on a malformed form |
| HttpServers.HTTPConnection.Finish | tornado/HttpServer.cpp:334-343 | marks the request finished and closes iff nothing is unsent, leaving the loop's table when it does |
| HttpServers.HTTPConnection.Write | tornado/HttpServer.cpp:354-357 | writes with the completion callback |
| HttpServers.HTTPConnection.WriteToBuff | tornado/HttpServer.cpp:359-362 | buffers only |
| HttpServers.HTTPConnection.OnWriteComplete | tornado/HttpServer.cpp:364-371 | closes a finished, drained, open connection, leaving the loop's table |
| HttpProofs.FinishAnswers | tornado/Web.cpp:130-166 | finish leaves a response that is live, or complete and closed, as its body allows |
| HttpProofs.ActsKeepPhase | tornado/HttpServer.cpp:334-371 | over any run of handler calls, events and notices the connection is still answering, or answered in good order |
| HttpProofs.ResponsesNeverStick | tornado/HttpServer.cpp:334-371 | after finish with a non-empty body: closed, or onWriteComplete queued, or bytes unsent with callback and WRITE interest, registered if the descriptor is in the handler table; and what the server closed had been sent in full |
| HttpProofs.FinishIsLiveIff | tornado/IOStream.cpp:142-143 | finish leaves a live response iff its body is not empty, or the stream had closed, or has no room for the head |
| HttpProofs.EmptyAnswerNeverCloses | tornado/IOStream.cpp:142-143 | after an empty answer left open the server never closes, whatever follows |
| HttpProofs.LongBodiesNeverArrive | tornado/HttpServer.cpp:190-205 | an accepted Content-Length over 101376 is never delivered, over any run |
| HttpBodies.BodyArrivesIff | tornado/HttpServer.cpp:190-205 | on an open stream some socket and some run deliver the body iff it is no longer than 101376 bytes and an expected 100-continue has room |
| HttpClosed.EncourageDoes | tornado/HttpServer.cpp:199-202 | the 100-continue answer closes the stream iff there is no room for it or the socket breaks before taking it |
| HttpClosed.OnHeadersSoundIff | tornado/HttpServer.cpp:180-208 | onHeaders keeps the stream sound iff it does not ask a closed one for a body, or the body is there and no close callback was told |
| HttpClosed.ConnectionIsSoundIff | tornado/HttpServer.cpp:168-371 | over any run of a connection its stream ends in good order iff no onHeaders of the run asked a closed stream for a body |
| HttpLifecycle.AcceptedIsOrderly | tornado/HttpServer.cpp:385-394 | a connection just accepted starts in good order |
| HttpLifecycle.AdvanceKeeps | tornado/HttpServer.cpp:168-224 | each event, notice or handler call keeps it so, through head, body and answer |
| HttpLifecycle.ConnectionsNeverStick | tornado/HttpServer.cpp:168-371 | from accept to close, whatever the client, socket, loop and handler do: a finished non-empty response is closed, or its completion is queued, or it waits to write, with its callback stored and, in the handler table, registered with that very mask; and it is sent in full before the server closes |
| HttpEndings.ForgottenForGood | tornado/IOLoop.cpp:21-42 | outside the handler table, or where epoll refused it, an open finished response with its completion not queued keeps its stream unchanged over every run |
| HttpEndings.ResponsesEndIff | tornado/HttpServer.cpp:334-371 | from wherever a run has come to: some moves of the socket and the loop alone bring an open, finished, non-empty response to the server's close with every byte sent iff its descriptor is in the handler table and its registration taken by epoll, or its completion is queued |
| HttpEndings.FairSchedulesEnd | tornado/HttpServer.cpp:334-371 | and, in the table, every schedule does that has as many write events taking a byte as bytes unsent, and then as many turns of the loop as notices queued, whatever else is in between: the connection is closed and, unless an event pass closed it, by the server with every byte sent |
| HttpNotices.NoticesFindTheirMember | tornado/HttpServer.cpp:168-208 | over any run of a connection the read notice run while the head is awaited is bound to onHeaders, and the one run while the body is awaited to onRequestBody |
| HttpArrival.EventsServe | tornado/IOStream.cpp:329-412 | an event pass with a request waiting leaves it waiting, with all bytes kept, or hands over exactly what it asks for and keeps the rest (meant fill) |
| HttpArrival.CountMoves | tornado/IOStream.cpp:198-239 | and so does a counted read on an idle stream, open or closed (meant fill) |
| HttpArrival.DispatchedIsExact | tornado/HttpServer.cpp:168-224 | over any run, whatever the pieces and whether or not the connection closes: when a client first sends a printed message and the body it declares, a request that is dispatched is that message with exactly that body and its form arguments (meant fill) |
| HttpPieces.RequestArrivesIff | tornado/HttpServer.cpp:168-224 | sent in pieces of any number and size, it is dispatched iff the descriptor is in the handler table, what arrives up to the piece that completes the head, and the body, each leave a chunk of room, and a form body is well-formed (meant fill) |
| HttpFill.CodedConnectionIsMeant | tornado/IOStream.cpp:550-587 | a run of a connection whose every pass reads nothing, or one chunk into an empty buffer, is the same under both fills |
| HttpFill.CodedDispatchIsExact | tornado/HttpServer.cpp:168-224 | so on such a run of the code a request that is dispatched is the message sent with exactly its body |
| StreamTwins.FirstByteLost | tornado/IOStream.cpp:522-546 | a pass of more than a chunk, read by the code into an empty buffer, ends the same whatever its first byte was |
| HttpTwins.FirstMakesNoDifference | tornado/HttpServer.cpp:168-224 | over everything that follows: the first byte of a piece makes no difference to a connection of the code if the piece is longer than a chunk, or serves nothing and is followed by another |
| HttpCoded.SomeRequestIsLost | tornado/IOStream.cpp:550-587 | when a request comes in other pieces than one of a chunk at most, or head and body in one such piece each, some request of its size, in pieces of the same sizes, does not reach its handler as it was sent |
| HttpCoded.CodedRequestsArriveIff | tornado/HttpServer.cpp:168-224 | where the code reads: every request with a head and a body of these lengths, in pieces of these lengths, reaches its handler as it was sent, iff the descriptor is in the handler table and it comes in one piece of at most a chunk, or head and body in one such piece each |
| HttpAnswers.SentIsTheAnswer | tornado/Web.cpp:119-166 | over every run from the accept that the server closes: one move finished the response, and all the client was sent is the 100-continue it was due, if any, then the head for the status and length then in force, then the body then gathered |
| HttpAnswers.SentReadsBack | tornado/Web.cpp:119-166 | what the client reads in it: the status in force, the reason, the four fields with the length of the body, and exactly that body |
| HttpFailures.PostDeclares | tornado/HttpServer.cpp:226-291 | a printed POST of any length is accepted and declares that length |
| HttpFailures.AskingPostDeclares | tornado/HttpServer.cpp:199 | and one that also expects a 100-continue |
| HttpFailures.ContinueStrandsItsCallback | tornado/HttpServer.cpp:199-203 | a run from the accept: such a request on a socket that breaks under the 100-continue answer leaves the stream closed with the body callback still stored |
| HttpFailures.BodyCanFollowTheClose | tornado/HttpServer.cpp:203 | a run from the accept: a request and its body that arrive together with an error have the body posted after the close notice |
| HttpFailures.EmptyAnswerHangs | tornado/Web.cpp:130-166 | a run from the accept, at every date: a GET is dispatched, its handler finishes with nothing written, and the connection is left open with a response that is not live |
| HttpFailures.UnregisteredAnswerHangs | tornado/IOStream.cpp:307-326 | every run from the accept of a GET on a descriptor outside the handler table, or refused by epoll, answered while the socket would block: it stays open, with bytes unsent and nothing queued |
| HttpFailures.LongPostIsStranded | tornado/HttpServer.cpp:190-205 | every run from the accept of a printed POST with a body above 101376 bytes, up to the 102400 allowed: it is accepted and waited for, and never dispatched |
| HttpSplitting.SplittingMatters | tornado/IOStream.cpp:522-546 | under either fill a body of 101376 bytes is dispatched when it comes after its head, and not when they come in one piece |
| HttpSplitting.LongHeadIsMangled | tornado/IOStream.cpp:558 | a head of two chunks in one piece is dispatched under the meant fill; under the code's, in the same run and every run after it, never |
| HttpRefusals.HeadsLeadTo | tornado/HttpServer.cpp:180-208 | every head: if malformed, or declaring more than 102400 bytes, the stream is closed and nothing dispatched; else without a body it is dispatched, and with one exactly the declared length is asked for |
| HttpRefusals.RefusedRequestsEnd | tornado/HttpServer.cpp:180-208 | over every run from the accept: once the notice of such a head has run the connection is closed for good and the request never dispatched |
| HttpServed.WritesGather | tornado/Web.cpp:97-117 | what a handler writes gathers in order |
| HttpServed.ExecuteGoesByVerb | tornado/Web.cpp:168-192 | execute: a GET or POST adds nothing to what the user's code calls, and writes then a finish are answered with those writes under the status in force; any other verb is answered 405 with its page, whatever that code would call |
| HttpServed.ServedRunIsRun | tornado/Web.cpp:258-267 | a run in which the handler is executed the moment its request is dispatched is a run of the connection with those calls put in: all that is proved of runs holds of it |
| HttpServed.RequestsAreServed | tornado/Web.cpp:130-192 | over every run from the accept that dispatches: a GET or POST whose code writes and finishes is answered 200 with what it wrote, any other verb with the page of a 405, whatever is called later; when the server has closed that and a 100-continue due are all that was sent |
| HttpServed.ServedReads | tornado/Web.cpp:146-166 | and the client reads in it that status, its reason, the length and the body |
| HttpRuns.MoveLeads | tornado/HttpServer.cpp:168-371 | every move of a connection is some operations of its stream, none a connect or a change of the close callback |
| HttpRuns.CloseReachesItsMember | tornado/HttpServer.cpp:168-177 | over every run from the accept the close is announced to the callback startRun installed, once, iff the stream has closed |
| HttpResponses.HeadsFirstLineReads | tornado/Web.cpp:151-162 | of every head, for every status and reason: its first line, split at spaces, is the version, the status as atoi reads it, and the reason |
| HttpResponses.ResponseReads | tornado/Web.cpp:146-166 | the round trip of a response: version, status, reason, the four fields and the body come back |
| HttpResponses.PageReads | tornado/Web.cpp:122-125 | the title of an error page gives back its status and reason |
| HttpResponses.ContinueReads | tornado/HttpServer.cpp:201 | the 100-continue reads as a response of status 100 without fields |
| HttpResponses.DateSplits | tornado/Util.h:52-61 | the date split at spaces: day of the week, day, month, year, time, zone |
| HttpResponses.DateReads | tornado/Util.h:52-61 | and its numbers read back |
| HttpHead.AtoiReads | tornado/HttpServer.cpp:120-128 | atoi skips white space, takes a sign, and reads digits up to the first other character |
| HttpHead.ReasonStandsFor | tornado/Web.cpp:8-68 | which statuses have a phrase of their own, and the phrases at the ends of each class |
| HttpHead.AtoiDecimal | tornado/HttpServer.cpp:120-128 | reading a printed number gives it back |
| HttpHead.HeadDeclaresItsBody | tornado/Web.cpp:146-166 | the head flush prints is accepted by the library's own parser, whose Content-Length is the length of the body that follows |
| HttpHead.HeadFitsIff | tornado/Web.cpp:151-162 | the formatted head fits its 256-byte buffer iff status, reason, date and length take less than 160 characters |
| HttpHead.ErrorPageFitsIff | tornado/Web.cpp:122-125 | and the error page iff status and reason take less than 233 |
| HttpHead.DecimalLengthIff | tornado/Web.cpp:151-162 | a number takes at most k characters iff it is below the k-th power of ten |
| HttpHead.ReasonIsPhrase | tornado/Web.cpp:10-68 | every phrase of the reason table has at most 31 characters and no return |
| HttpHead.HeadAlwaysFits | tornado/Web.cpp:119-166 | with the phrases of the table, a calendar date and the integer widths of the code, the head fits its buffer, is accepted by the library's own parser and declares the length of its body, and the error page fits, for every status but 506, the only one looked up past the table |
| Web.RequestHandler.Write | tornado/Web.cpp:97-105 | gathers the body, ignored once finished |
| Web.RequestHandler.Flush | tornado/Web.cpp:146-166 | hands head then body to the connection and empties the buffer |
| Web.RequestHandler.Finish | tornado/Web.cpp:130-144 | flushes and finishes, once |
| Web.RequestHandler.SendError | tornado/Web.cpp:119-127 | the error page after what was written, then finish |
| Web.RequestHandler.Execute | tornado/Web.cpp:168-192 | GET and POST reach the user's code, any other verb is answered 405, a finished handler does nothing |
| Base64.EncodableIff | tornado/util/comm.cpp:123-163 | the encoder stays inside its table iff no unmasked shift sees a negative char, and then signedness does not matter |
| Base64.ScannableIff | tornado/util/comm.cpp:186-197 | the decoder stays inside its table iff the first foreign character before '=', if any, is below 128 (below 256 when `char` is unsigned) |
| Base64.IndicesAreDigits | tornado/util/comm.cpp:131-135 | inside the table the shifts compute the four six-bit digits |
| Base64.EncodeInternal | tornado/util/comm.cpp:123-163 | the encoding loop yields the encoding of RFC 4648 sections 4 and 5, padded or not, for every encodable input |
| Base64.Scan | tornado/util/comm.cpp:186-197 | inside its table, the scan accepts iff what precedes the first '=' is in the alphabet |
| Base64.DecodeInternal | tornado/util/comm.cpp:183-225 | the decoding loop yields the decoding, with its two error codes, for every text that keeps it inside its table |
| Base64.CodecHolds | tornado/util/comm.cpp:206-224 | one group of three bytes and four characters is a bijection, and short groups keep all but their trailing bits |
| Base64.EncodedLength | tornado/util/comm.cpp:128-162 | output lengths 4*ceil(n/3) padded and floor((4n+2)/3) unpadded |
| Base64.DecodeEncode | tornado/util/comm.cpp:123-225 | decode(encode(x)) == x for both alphabets, padded or not |
| Base64.DecodeSucceedsIff | tornado/util/comm.cpp:186-202 | decoding succeeds iff what precedes the first '=' is in the alphabet and its length is not 1 mod 4 |
| Base64.EncodeDecodeIff | tornado/util/comm.cpp:183-225 | encode(decode(s)) == s iff the padding is right and the trailing bits are zero (section 3.5 of RFC 4648) |

## Left out

- StreamOrder.CodedReadsAreFifoIff: both sides range over all payloads of a shape, those included whose runs an assertion of the code would stop, as where a request follows a delimiter read that the payload leaves pending; StreamOrder.DelimitedReadsAreFifoIff and HttpCoded.CodedRequestsArriveIff range over runs the code has alone.
- HttpCoded.CodedRequestsArriveIff: for a verb of one character at least, on a stream as its constructor leaves it; each piece is read as it arrives and the loop then runs what it posted.
- StreamReads.ReadsAreSequential: for the meant fill, because byte order is false of the code's; StreamFill says exactly when it is true of the code.
- StreamReads.FragmentationDoesNotMatter: for the meant fill, as above.
- StreamReads.NothingReceivedIsLost: for the meant fill, as above.
- StreamReads.RunFaithful: for the meant fill, as above.
- StreamServed.ReadUntilCloseGetsTheRest: for the meant fill, as above.
- HttpArrival.EventsServe: for the meant fill, as above.
- HttpArrival.CountMoves: for the meant fill, as above.
- HttpArrival.DispatchedIsExact: for the meant fill, as above.
- HttpPieces.RequestArrivesIff: for the meant fill, as above.
- StreamProofs.MeantPassIsFifo: for the meant fill, as above.
- StreamProofs.ReadsKeep: for a stream that is open; StreamClosed.ClosedReadIff covers the closed one.
- StreamProofs.StepKeeps: for calls that find the stream open where they need it; StreamClosed.StepSoundIff covers the others.
- StreamProofs.ReachableIsSound: for such runs; StreamClosed.ReachableIsSoundIff covers the others.
- IOStreams.IOStream.ReadBytes: requires, as the assertion in the code does, that no other read is pending.
- IOStreams.IOStream.ReadUntil: requires, as the assertion in the code does, that no other read is pending.
- IOStreams.IOStream.ReadUntilClose: requires, as the assertion in the code does, that no other read is pending.
- IOStreams.IOStream.WriteBytesWith: requires, as the assertion in the code does, that no write callback is stored.
- HttpServed.RequestsAreServed: the handler found for the path is given as the calls its get() or post() makes; the routing table is not modelled.
- IOStreams.IOStream.HandleEvents: what the loop holds for a stream is a script that names it; the call itself is a step of `StreamModel`, `StreamInLoop` and `HttpLifecycle`.
- TimerQueues.TimeoutQueue.Add: the overflow of now + delay in 64 bits is not modelled.
- IOLoops.IOLoop.DispatchReady: a handler is a finite script and sees neither its descriptor nor its events.
- IOLoops.IOLoop.Start: callbacks are finite scripts, clock readings are supplied, and how long a poll sleeps is not; a failed assertion ends the run.
- HttpServers.HTTPConnection.OnHeaders: `atoi` is unbounded; its overflow in 32 bits is not modelled.
- Web.RequestHandler.Flush: the head is an unbounded string, which HttpHead.HeadAlwaysFits shows to fit its buffer; the reason phrase and the date are supplied.
- Web.RequestHandler.SendError: the error page is an unbounded string, which the same lemma shows to fit.
- Equal expirations: the container is taken to insert after its equals, as its ordered index does.
- Sockets, epoll, signalfd and the clock: system calls, kept as supplied answers.
- `shared_ptr` lifetimes and destructors: objects are taken to live while referenced.
- `Buffer::clear`, `addSignalHandler`, hex and unhex, `print`: easy members beside the ones modelled.
- TcpServer, Resolver, App, Logging, Application routing, JSON, INI and XML wrappers, the other shared-memory containers: plumbing over libraries that are not part of this model.
