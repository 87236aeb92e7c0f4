# The Protocol Master: verified models

This project models, in Dafny, the parts of the repository whose behaviour is hardest to see from their code, and proves
what they promise. Most of it is the runtime that ships inside the web console: Alpine's keyed list reconciler, reactive
core and job queue, and the byte and stream runtime of the Swagger UI bundle (buffers, UTF-8, SHA-512, streams, timers,
events). The rest is the project's own Java: choosing and filling in a database mock, and the start-up gate.

`dafny verify dfyconfig.toml` checks everything.

| module | models |
|---|---|
| `ChildList`, `KeyPlan`, `Reconciler` | the `x-for` reconciler: moves in a child list, planning on a virtual copy of the keys, carrying the plan out on the real elements |
| `Reactive` | effects, dependency graph and proxy traps of plain objects, as a machine over runs |
| `JobQueue` | the scheduler whose queue its jobs change while it is flushed |
| `EffectQueue` | both together: triggered effects are queued, and the flush calls them |
| `Utf8`, `StringDecoder` | the buffer's UTF-8 codec and the streaming decoder |
| `IntegerCodec` | signed integers of one to six bytes, in both byte orders |
| `Words`, `Sha512`, `BlockHash`, `Sha512Hash` | SHA-512 on 32-bit halves, the block buffer, and both together |
| `BufferList`, `Readable` | the linked list of chunks and the reading side of a stream |
| `Writable` | the writing side of a stream, as a machine with a call stack over runs |
| `NextTick` | the `nextTick` queue with its two timers |
| `EventEmitter` | shared listener arrays, nested emits and once wrappers, as a machine over runs and as an object |
| `MockSelection`, `MockSubstitution` | scoring database mocks, and substituting captured variables into an answer |
| `StartupGate`, `FilterList` | the threads of `Main.execute`, the thread that waits for them, and the list they share |
| `Seqs`, `Bytes`, `Division`, `Options` | shared vocabulary |

Code that updates things in place is a class or a method on arrays, proved against functions on values; protocols are
step functions over states with theorems about every run. JavaScript numbers are integers here, with explicit bounds
where the code relies on them; bit operations are arithmetic on integers or, for SHA-512, on sequences of bits. What
user code does (hooks, callbacks, listeners, jobs) is unrestricted unless a theorem says so.

Where the code does not do what it is for, the model keeps the code's behaviour, a lemma gives a failing input, and a
theorem says exactly when it does meet its purpose:

- Reconciler: a new key directly behind the key spelled "template" is put in front of it, because that name also stands
  for the template element; and survivors that stand in a wrong order come out in a wrong order, because swaps are
  planned for the order of the keys and not for that of the page (`FinalOrderIff`, `TemplateKeyMisplaces`).
- UTF-8 encoder: of two lead surrogates at the end of a string the last one is lost (`ReplacesSurrogatesIff`,
  `SecondLeadLost`).
- String decoder: when a character is broken off behind two or three of its bytes, by another byte or by the end, the
  stream writes one replacement character and the whole-input decoder one for each byte. On all other byte strings they
  agree (`StreamingAgreesIff`, `BrokenOffDiffers`).
- Job queue: a job that dequeues itself and leaves another job at its index makes the flush skip that job
  (`FlushRunsAllIff`, `SelfDequeueSkipsNext`); a job that throws stops the scheduler for good (`SchedulesAgainIff`,
  `ThrowStopsScheduler`).
- Effects and the job queue together: an effect that is triggered when the flush has passed its place, or is at it, is
  not run again, because the queue still holds it (`NothingMissedIff`, `LateTriggerRun`).
- Stopping an effect: one that is stopped while it runs and reads on is registered again (`StoppedIsTriggeredIff`,
  `StoppedThenReads`).
- Writable stream: a `_write` hook that writes again after completing, while the buffer is being emptied, overtakes
  older requests (`RunInOrderIff`, `OvertakingRun`).
- Mock selection: a best mock numbered 0 or less is found and then ignored (`FindMock`, `NumberedZeroIsIgnored`).
- Mock parameters: the regular expression of `@{...}` is tested without its last two characters (`ExpressionIsCut`).
- Mock substitution: a captured value that spells another placeholder, or ends in the beginning of one, makes the answer
  depend on the order of the hash map (`OrderFreeIff`, `CapturedPlaceholder`).
- Start-up gate: the filter list is a plain list, so two threads that add at the same time lose a filter although the
  gate opens (`OpenListCompleteIff`, `OpensWithoutFilter`); and the gate may open before services are published
  (`OpensWithServicesIff`, `OpensBeforeServices`).

## Model

| member | source | states |
|---|---|---|
| `ChildList.SwapThroughPlaceholderSwaps` | protocol-runner/src/main/resources/web/lib/alpine.js:5 | the four node moves through a placeholder exchange two elements, whichever stands first, and move nothing else |
| `KeyPlan.PlanRemovals` | protocol-runner/src/main/resources/web/lib/alpine.js:5 | the removals are the previous keys that are not in the new list, in order |
| `KeyPlan.PlanKey` | protocol-runner/src/main/resources/web/lib/alpine.js:5 | one turn of the planning loop on the spliced virtual list keeps the relation between the virtual list and what the recorded swaps alone do to the real one |
| `KeyPlan.Plan` | protocol-runner/src/main/resources/web/lib/alpine.js:5 | the swaps alone bring the survivors into their new relative order, the insertions are owed for exactly the other keys, and every survivor is refreshed |
| `KeyPlan.AddsRestoreOrderIff` | protocol-runner/src/main/resources/web/lib/alpine.js:5 | inserting after all swaps gives the new key order if and only if no new key directly follows the key spelled "template" |
| `KeyPlan.MisplacedBreaksOrder` | protocol-runner/src/main/resources/web/lib/alpine.js:5 | a new key directly behind the key "template" ends up ahead of it, whatever is inserted later |
| `KeyPlan.FinalOrderIff` | protocol-runner/src/main/resources/web/lib/alpine.js:5 | from every order that the page may show, the order comes out right if and only if the page shows the surviving keys in their previous order and no new key directly follows the key spelled "template" |
| `KeyPlan.MovesRearrange` | protocol-runner/src/main/resources/web/lib/alpine.js:5 | what swaps planned for the previous keys do to a page in another order: each survivor gives its place to its counterpart among the new keys |
| `KeyPlan.SameKeysSameOrder` | protocol-runner/src/main/resources/web/lib/alpine.js:5 | running again with the same keys leaves every order as it is, so a wrong one stays |
| `KeyPlan.TemplateKeyMisplaces` | protocol-runner/src/main/resources/web/lib/alpine.js:5 | the concrete failing inputs: rendering the keys "template", x into an empty list, and then the same keys again |
| `Reconciler.CarryOutReconciles` | protocol-runner/src/main/resources/web/lib/alpine.js:5 | carrying out any such plan, from any order on the page, lays the elements out in the final order, keeps the element of every retained key, gives each key its scope, and makes the lookup hold exactly the new keys; with the condition for the right order |
| `Reconciler.DiscardPass` | protocol-runner/src/main/resources/web/lib/alpine.js:5 | the removal pass in terms of its specification |
| `Reconciler.MovePass` | protocol-runner/src/main/resources/web/lib/alpine.js:5 | the swap pass in terms of its specification |
| `Reconciler.RenderPass` | protocol-runner/src/main/resources/web/lib/alpine.js:5 | the insertion pass in terms of its specification |
| `Reconciler.RefreshPass` | protocol-runner/src/main/resources/web/lib/alpine.js:5 | the pass over unchanged keys in terms of its specification |
| `Reconciler.ReconcilePage` | protocol-runner/src/main/resources/web/lib/alpine.js:5 | planning and the four passes together reconcile a page, also one left in another order by an earlier run: final order and when it is right, element reuse, lookup domain and scopes |
| `Reconciler.ForDirective.Reconcile` | protocol-runner/src/main/resources/web/lib/alpine.js:5 | run after run, whatever order the page shows: elements are reused, removed and rendered as the keys say, each key has its scope, and the elements stand behind the template in key order exactly when the survivors were in their previous order and no new key follows the key "template" |
| `Utf8.AcceptsExactlyChars` | protocol-runner/src/main/resources/web/swagger-ui/swagger-ui-es-bundle-core.js:2 | the decoder accepts a character exactly when section 4 of RFC 3629 does |
| `Utf8.DecodeSlice` | protocol-runner/src/main/resources/web/swagger-ui/swagger-ui-es-bundle-core.js:2 | the decoding loop (`A`) gives the UTF-16 units of the code points found, one U+FFFD for each byte it cannot place |
| `Utf8.Encode` | protocol-runner/src/main/resources/web/swagger-ui/swagger-ui-es-bundle-core.js:2 | the encoding loop (`H`), with its pending lead surrogate and overdrawn byte budget, writes what the recursive specification says |
| `Utf8.FittingIsGreedyPrefix` | protocol-runner/src/main/resources/web/swagger-ui/swagger-ui-es-bundle-core.js:2 | with a budget the output is the encoding of the longest prefix of code points that fits |
| `Utf8.EncoderWellFormed` | protocol-runner/src/main/resources/web/swagger-ui/swagger-ui-es-bundle-core.js:2 | every string, ill-formed ones included, encodes to well-formed UTF-8, with or without a budget |
| `Utf8.ReplacesSurrogatesIff` | protocol-runner/src/main/resources/web/swagger-ui/swagger-ui-es-bundle-core.js:2 | unpaired surrogates become U+FFFD if and only if the string does not end in two lead surrogates; otherwise the last one is lost |
| `Utf8.SecondLeadLost` | protocol-runner/src/main/resources/web/swagger-ui/swagger-ui-es-bundle-core.js:2 | the concrete input on which the encoder loses a unit |
| `Utf8.StringRoundTripIff` | protocol-runner/src/main/resources/web/swagger-ui/swagger-ui-es-bundle-core.js:2 | decoding an encoded string gives it back if and only if it has no lone surrogate |
| `Utf8.BytesRoundTripIff` | protocol-runner/src/main/resources/web/swagger-ui/swagger-ui-es-bundle-core.js:2 | encoding a decoded byte string gives it back if and only if it is well-formed |
| `StringDecoder.StreamingAgreesIff` | protocol-runner/src/main/resources/web/swagger-ui/swagger-ui-es-bundle-core.js:2 | for every byte string, all splits into chunks give, over all `write` results and `end`, the string that decoding the whole input gives, if and only if no character is broken off behind at least two of its bytes |
| `StringDecoder.StreamingAgrees` | protocol-runner/src/main/resources/web/swagger-ui/swagger-ui-es-bundle-core.js:2 | in particular for every split of well-formed bytes |
| `StringDecoder.TruncatedStream` | protocol-runner/src/main/resources/web/swagger-ui/swagger-ui-es-bundle-core.js:2 | when the input stops inside a character, stream and whole decode agree if and only if exactly one byte of it was seen |
| `StringDecoder.BrokenOffDiffers` | protocol-runner/src/main/resources/web/swagger-ui/swagger-ui-es-bundle-core.js:2 | the failing inputs: two bytes of a longer character and then one that does not continue it |
| `StringDecoder.Decoder.Write` | protocol-runner/src/main/resources/web/swagger-ui/swagger-ui-es-bundle-core.js:2 | one `write`, with its four-byte buffer filled in place, computes the specified step |
| `StringDecoder.Decoder.TextFrom` | protocol-runner/src/main/resources/web/swagger-ui/swagger-ui-es-bundle-core.js:2 | decoding up to an unfinished character, which goes into the buffer |
| `StringDecoder.DecodeChunks` | protocol-runner/src/main/resources/web/swagger-ui/swagger-ui-es-bundle-core.js:2 | a decoder object fed with any chunks and closed returns the decoded whole, unless a character is broken off behind two of its bytes |
| `IntegerCodec.StoresTwosComplement` | protocol-runner/src/main/resources/web/swagger-ui/swagger-ui-es-bundle-core.js:2 | truncating division minus the borrow flag stores the byte of the two's complement form |
| `IntegerCodec.BorrowSticks` | protocol-runner/src/main/resources/web/swagger-ui/swagger-ui-es-bundle-core.js:2 | the sticky borrow flag is set exactly from the first nonzero lower byte of a negative value on |
| `IntegerCodec.UnsignedTwosBytes` | protocol-runner/src/main/resources/web/swagger-ui/swagger-ui-es-bundle-core.js:2 | read as unsigned, the stored bytes are the value modulo 256^width |
| `IntegerCodec.RoundTripIff` | protocol-runner/src/main/resources/web/swagger-ui/swagger-ui-es-bundle-core.js:2 | reading the two's complement bytes gives the value back if and only if it is in the signed range |
| `IntegerCodec.WriteIntLE` | protocol-runner/src/main/resources/web/swagger-ui/swagger-ui-es-bundle-core.js:2 | `writeIntLE` stores the two's complement bytes, touches no other byte, and refuses what does not fit |
| `IntegerCodec.WriteIntBE` | protocol-runner/src/main/resources/web/swagger-ui/swagger-ui-es-bundle-core.js:2 | the same for `writeIntBE`, most significant byte first |
| `IntegerCodec.ReadIntLE` | protocol-runner/src/main/resources/web/swagger-ui/swagger-ui-es-bundle-core.js:2 | `readIntLE` reads the signed value of the bytes, or reports a range error |
| `IntegerCodec.ReadIntBE` | protocol-runner/src/main/resources/web/swagger-ui/swagger-ui-es-bundle-core.js:2 | the same for `readIntBE` |
| `IntegerCodec.WriteThenRead` | protocol-runner/src/main/resources/web/swagger-ui/swagger-ui-es-bundle-core.js:2 | writing and reading back returns the value exactly when it was accepted, in either byte order |
| `Sha512.AddJoined` | protocol-runner/src/main/resources/web/swagger-ui/swagger-ui-es-bundle-core.js:2 | adding half words with the carry function `v` is 64-bit modular addition |
| `Sha512.RoundRefines` | protocol-runner/src/main/resources/web/swagger-ui/swagger-ui-es-bundle-core.js:2 | one round on high and low halves is one round of section 6.4.2 of FIPS 180-4 |
| `Sha512.NextPairRefines` | protocol-runner/src/main/resources/web/swagger-ui/swagger-ui-es-bundle-core.js:2 | one step of the half-word schedule is one step of the 64-bit schedule |
| `Sha512.HalfScheduleJoined` | protocol-runner/src/main/resources/web/swagger-ui/swagger-ui-es-bundle-core.js:2 | every pair of the half-word schedule is the word of the 64-bit schedule |
| `Sha512.HalfCompressJoined` | protocol-runner/src/main/resources/web/swagger-ui/swagger-ui-es-bundle-core.js:2 | 80 rounds and the final additions on halves are the 64-bit compression of section 6.4.2 of FIPS 180-4 |
| `Sha512.Update` | protocol-runner/src/main/resources/web/swagger-ui/swagger-ui-es-bundle-core.js:2 | for every block and chaining value, the interleaved array, the 80 rounds and the final additions compute the half-word compression, and so the 64-bit one |
| `Sha512.ConstantValue` | protocol-runner/src/main/resources/web/swagger-ui/swagger-ui-es-bundle-core.js:2 | the number that the two halves of a round constant spell; that it is the rounded root of a prime is a precondition met at every entry of the tables |
| `BlockHash.PaddingIsLeast` | protocol-runner/src/main/resources/web/swagger-ui/swagger-ui-es-bundle-core.js:2 | the zeros written are the fewest that align the length field, as section 5.1 of FIPS 180-4 has it, and the padded message fills its blocks |
| `BlockHash.DigestOne` | protocol-runner/src/main/resources/web/swagger-ui/swagger-ui-es-bundle-core.js:2 | when the length fits into the last block, one block completes the padded message of section 5.1 of FIPS 180-4 |
| `BlockHash.DigestTwo` | protocol-runner/src/main/resources/web/swagger-ui/swagger-ui-es-bundle-core.js:2 | otherwise two blocks complete it |
| `BlockHash.LengthField` | protocol-runner/src/main/resources/web/swagger-ui/swagger-ui-es-bundle-core.js:2 | the two 32-bit length words are the length field of the padding |
| `BlockHash.Hash.Update` | protocol-runner/src/main/resources/web/swagger-ui/swagger-ui-es-bundle-core.js:2 | any chunk, empty or longer than a block, moves the buffer on to the message so far |
| `BlockHash.Hash.Digest` | protocol-runner/src/main/resources/web/swagger-ui/swagger-ui-es-bundle-core.js:2 | whatever the chunks were, exactly the blocks of the padded message went through the compression function, for block sizes 64 and 128 |
| `Sha512Hash.AbsorbCommutes` | protocol-runner/src/main/resources/web/swagger-ui/swagger-ui-es-bundle-core.js:2 | a step that commutes with a view of the chaining value does so over a whole message |
| `Sha512Hash.AbsorbJoined` | protocol-runner/src/main/resources/web/swagger-ui/swagger-ui-es-bundle-core.js:2 | over a whole message the chain of half-word compressions is the chain of 64-bit compressions |
| `Sha512Hash.OutputIsFips` | protocol-runner/src/main/resources/web/swagger-ui/swagger-ui-es-bundle-core.js:2 | the digest bytes taken from the halves are the digest of FIPS 180-4 |
| `Sha512Hash.Digest` | protocol-runner/src/main/resources/web/swagger-ui/swagger-ui-es-bundle-core.js:2 | hashing a message in any chunks, by half-word compressions of its buffered blocks, gives its SHA-512 digest |
| `BufferList.BufferList.Push` | protocol-runner/src/main/resources/web/swagger-ui/swagger-ui-es-bundle-core.js:2 | the chunk goes to the end; head, tail and length describe the node chain |
| `BufferList.BufferList.Unshift` | protocol-runner/src/main/resources/web/swagger-ui/swagger-ui-es-bundle-core.js:2 | the chunk goes to the front |
| `BufferList.BufferList.Shift` | protocol-runner/src/main/resources/web/swagger-ui/swagger-ui-es-bundle-core.js:2 | the first chunk leaves; an empty list gives nothing |
| `BufferList.BufferList.Clear` | protocol-runner/src/main/resources/web/swagger-ui/swagger-ui-es-bundle-core.js:2 | the list is empty |
| `BufferList.BufferList.Concat` | protocol-runner/src/main/resources/web/swagger-ui/swagger-ui-es-bundle-core.js:2 | all bytes in order, copied into one buffer |
| `BufferList.BufferList.GetBuffer` | protocol-runner/src/main/resources/web/swagger-ui/swagger-ui-es-bundle-core.js:2 | across nodes: the bytes asked for leave, whole nodes first, then a part of the next |
| `BufferList.BufferList.Consume` | protocol-runner/src/main/resources/web/swagger-ui/swagger-ui-es-bundle-core.js:2 | exactly the first n bytes are returned and gone, within a chunk, a whole chunk, or across several |
| `Readable.FirstInFirstOut` | protocol-runner/src/main/resources/web/swagger-ui/swagger-ui-es-bundle-core.js:2 | without `unshift`, the pieces handed out followed by the bytes held are the bytes pushed, in order |
| `Readable.Conserved` | protocol-runner/src/main/resources/web/swagger-ui/swagger-ui-es-bundle-core.js:2 | with `unshift`, no byte is lost and none made up |
| `Readable.Stream.AddChunk` | protocol-runner/src/main/resources/web/swagger-ui/swagger-ui-es-bundle-core.js:2 | a chunk goes behind, or in front of, the bytes held, or is handed on at once by a flowing stream that holds nothing; length counts the bytes held; a waiting reader is told |
| `Readable.Stream.Push` | protocol-runner/src/main/resources/web/swagger-ui/swagger-ui-es-bundle-core.js:2 | `push` of a chunk, an empty chunk or the end, and whether the stream wants more |
| `Readable.Stream.Unshift` | protocol-runner/src/main/resources/web/swagger-ui/swagger-ui-es-bundle-core.js:2 | `unshift` puts bytes back in front, and is refused after the end event |
| `Readable.Stream.Read` | protocol-runner/src/main/resources/web/swagger-ui/swagger-ui-es-bundle-core.js:2 | the `_read` hook is called exactly when the stream has not ended, is not in the hook, and is low on bytes or a reader waits; the bytes handed out are a prefix of those held, as many as asked for if there are so many, all of them at the end; a reader that gets nothing is noted, and one that finds an ended stream empty is told the end |
| `Readable.Stream.ReadableTick` | protocol-runner/src/main/resources/web/swagger-ui/swagger-ui-es-bundle-core.js:2 | behind the readable event the reader waits again while there is little to read |
| `Readable.RoundsUp` | protocol-runner/src/main/resources/web/swagger-ui/swagger-ui-es-bundle-core.js:2 | the mark is raised to the least power of two that is not below the amount asked for |
| `Readable.FeedBrings` | protocol-runner/src/main/resources/web/swagger-ui/swagger-ui-es-bundle-core.js:2 | the `_read` hook brings the bytes that it pushes before it ends the stream, and those that it puts back, and takes none out |
| `Readable.Stream.EndTick` | protocol-runner/src/main/resources/web/swagger-ui/swagger-ui-es-bundle-core.js:2 | the end event comes only when the stream has ended and everything has been read |
| `Writable.StepKeepsInv` | protocol-runner/src/main/resources/web/swagger-ui/swagger-ui-es-bundle-core.js:2 | every step of write, cork, uncork, end, completion, callbacks and deferred work keeps the accounts of the stream, unless a write overtakes |
| `Writable.RunInOrder` | protocol-runner/src/main/resources/web/swagger-ui/swagger-ui-es-bundle-core.js:2 | over whole runs chunks reach `_write` in write order and one at a time, `length` counts the bytes of uncompleted writes, `bufferedRequestCount` the pending list, and an uncorked idle stream holds nothing back |
| `Writable.RunFinishesOnce` | protocol-runner/src/main/resources/web/swagger-ui/swagger-ui-es-bundle-core.js:2 | `finish` comes at most once, and only after `end` with every accepted write delivered and acknowledged |
| `Writable.QuietStreamHasFinished` | protocol-runner/src/main/resources/web/swagger-ui/swagger-ui-es-bundle-core.js:2 | an ended stream with nothing left to run, complete or uncork has finished |
| `Writable.RunInOrderIff` | protocol-runner/src/main/resources/web/swagger-ui/swagger-ui-es-bundle-core.js:2 | delivery follows write order throughout a run if and only if no `_write` hook writes after completing while a drain holds older requests back |
| `Writable.WaitersAreWoken` | protocol-runner/src/main/resources/web/swagger-ui/swagger-ui-es-bundle-core.js:2 | a caller told to wait is not forgotten: once a stream that goes on has nothing left to run, complete or uncork, the drain event has come; and there are never more drain events than writes that asked for one |
| `Writable.AskedToWaitIff` | protocol-runner/src/main/resources/web/swagger-ui/swagger-ui-es-bundle-core.js:2 | in every run, `write` tells its caller to wait if and only if the bytes accepted and not completed reach the mark with it, and the drain event is then due |
| `Writable.DrainEventIff` | protocol-runner/src/main/resources/web/swagger-ui/swagger-ui-es-bundle-core.js:2 | when the last write completes, the drain event is emitted if and only if a caller waits and the stream goes on |
| `Writable.EndLeadsToFinish` | protocol-runner/src/main/resources/web/swagger-ui/swagger-ui-es-bundle-core.js:2 | in every run, after `end` a stream whose user code returns and completes what it was given delivers every accepted chunk in order, acknowledges it and finishes |
| `Writable.HooksInTurn` | protocol-runner/src/main/resources/web/swagger-ui/swagger-ui-es-bundle-core.js:2 | `_final` and the prefinish event come at most once, in that order and before the finish; only inside a hook is a completion taken for a synchronous one |
| `Writable.OvertakingBreaksOrder` | protocol-runner/src/main/resources/web/swagger-ui/swagger-ui-es-bundle-core.js:2 | such a write is delivered before an older one |
| `Writable.OvertakingRun` | protocol-runner/src/main/resources/web/swagger-ui/swagger-ui-es-bundle-core.js:2 | a concrete run that reaches such a write |
| `NextTick.StepKeepsInv` | protocol-runner/src/main/resources/web/swagger-ui/swagger-ui-es-bundle-core.js:2 | calls, timers, returns and throws keep the queue in order and a drain or timer in charge of it |
| `NextTick.ExactlyOnceInOrder` | protocol-runner/src/main/resources/web/swagger-ui/swagger-ui-es-bundle-core.js:2 | in every run the callbacks started are a prefix of those asked for, and owed callbacks have a drain on the stack or exactly one timer |
| `NextTick.TimerMakesProgress` | protocol-runner/src/main/resources/web/swagger-ui/swagger-ui-es-bundle-core.js:2 | a timer that fires while callbacks are owed starts the next one, also behind one that threw |
| `NextTick.ThrowThenResumes` | protocol-runner/src/main/resources/web/swagger-ui/swagger-ui-es-bundle-core.js:2 | a callback that throws ends the drain, and the timer set for that goes on behind it |
| `NextTick.DrainFinishes` | protocol-runner/src/main/resources/web/swagger-ui/swagger-ui-es-bundle-core.js:2 | once callbacks stop throwing and queueing, all that is owed runs and no timer is left |
| `EventEmitter.EmitCallsThosePresent` | protocol-runner/src/main/resources/web/swagger-ui/swagger-ui-es-bundle-core.js:2 | in every run, however emits nest and listeners add, remove, emit or throw, an emit calls the listeners present at its start in order: a prefix of them while it runs, all of them when it returns |
| `EventEmitter.EmitCallsAll` | protocol-runner/src/main/resources/web/swagger-ui/swagger-ui-es-bundle-core.js:2 | in every run, an emit whose listeners just return calls all of them and leaves the emits around it as they were |
| `EventEmitter.ListInOrder` | protocol-runner/src/main/resources/web/swagger-ui/swagger-ui-es-bundle-core.js:2 | the list of an event: those added in front, the newest first, then those added at the end, the oldest first |
| `EventEmitter.CallsInOrder` | protocol-runner/src/main/resources/web/swagger-ui/swagger-ui-es-bundle-core.js:2 | so an emit calls the listeners in the order of their registration |
| `EventEmitter.OnceRunsAtFirstCall` | protocol-runner/src/main/resources/web/swagger-ui/swagger-ui-es-bundle-core.js:2 | in every run, a once listener runs at the first call of its wrapper and never again |
| `EventEmitter.OnceIsFresh` | protocol-runner/src/main/resources/web/swagger-ui/swagger-ui-es-bundle-core.js:2 | `once` registers a wrapper that no event holds and that has never been called |
| `EventEmitter.StepKeepsInv` | protocol-runner/src/main/resources/web/swagger-ui/swagger-ui-es-bundle-core.js:2 | adding, removing, emitting, calling and throwing keep the shared arrays apart from the copies of running emits, and the count of events |
| `EventEmitter.RunKeepsInv` | protocol-runner/src/main/resources/web/swagger-ui/swagger-ui-es-bundle-core.js:2 | so does every run |
| `EventEmitter.AddRefines` | protocol-runner/src/main/resources/web/swagger-ui/swagger-ui-es-bundle-core.js:2 | nothing, a single function and an array changed in place stand for one listener list, which grows at its end, or in front with `prepend`, and no other list changes |
| `EventEmitter.RemoveRefines` | protocol-runner/src/main/resources/web/swagger-ui/swagger-ui-es-bundle-core.js:2 | the last listener that stands for a function goes, an array of one becomes a single function, an empty event disappears |
| `EventEmitter.RemoveTakesLast` | protocol-runner/src/main/resources/web/swagger-ui/swagger-ui-es-bundle-core.js:2 | a function takes out the last listener that is it or a once wrapper around it, a wrapper the last that is this wrapper; if there is none, nothing changes |
| `EventEmitter.RemoveUndoesAdd` | protocol-runner/src/main/resources/web/swagger-ui/swagger-ui-es-bundle-core.js:2 | removing a listener undoes adding it at the end |
| `EventEmitter.RemoveAfterPrepend` | protocol-runner/src/main/resources/web/swagger-ui/swagger-ui-es-bundle-core.js:2 | a listener added in front is the last of its kind to be removed |
| `EventEmitter.FindLast` | protocol-runner/src/main/resources/web/swagger-ui/swagger-ui-es-bundle-core.js:2 | the search from behind finds the last listener that stands for a function |
| `EventEmitter.Emitter.AddListener` | protocol-runner/src/main/resources/web/swagger-ui/swagger-ui-es-bundle-core.js:2 | the listener comes behind all others of the event, or before them with `prepend`; the invariant is kept |
| `EventEmitter.Emitter.RemoveListener` | protocol-runner/src/main/resources/web/swagger-ui/swagger-ui-es-bundle-core.js:2 | the last occurrence leaves the list of the event; the invariant is kept |
| `EventEmitter.Emitter.SpliceOne` | protocol-runner/src/main/resources/web/swagger-ui/swagger-ui-es-bundle-core.js:2 | shifting the tail of the stored array down in place cuts out one element and leaves all other arrays alone |
| `EventEmitter.Emitter.Once` | protocol-runner/src/main/resources/web/swagger-ui/swagger-ui-es-bundle-core.js:2 | a wrapper with a number not used before, and not fired, is added |
| `EventEmitter.Emitter.Begin` | protocol-runner/src/main/resources/web/swagger-ui/swagger-ui-es-bundle-core.js:2 | `emit` copies the listeners of the event before it calls any |
| `EventEmitter.Emitter.CallNext` | protocol-runner/src/main/resources/web/swagger-ui/swagger-ui-es-bundle-core.js:2 | the innermost emit calls the next listener of its copy, or returns; the invariant is kept |
| `EventEmitter.Emitter.CallListener` | protocol-runner/src/main/resources/web/swagger-ui/swagger-ui-es-bundle-core.js:2 | a wrapper that has not fired takes itself off its event and runs; one that has fired does nothing |
| `JobQueue.FlushRunsAllIff` | protocol-runner/src/main/resources/web/lib/alpine.js:1 | a flush that no job breaks off runs every job left in the queue if and only if no job, when it has run, leaves another one at its own index |
| `JobQueue.FlushRunsEverything` | protocol-runner/src/main/resources/web/lib/alpine.js:1 | then, and so whenever jobs do not dequeue themselves, it runs no job twice, every job that nobody dequeues exactly once in order of arrival, and leaves an empty queue |
| `JobQueue.WalkAbortsIff` | protocol-runner/src/main/resources/web/lib/alpine.js:1 | the flush breaks off exactly when a job that it reaches throws |
| `JobQueue.SchedulesAgainIff` | protocol-runner/src/main/resources/web/lib/alpine.js:1 | after a flush, jobs can be scheduled again if and only if no job it reached has thrown |
| `JobQueue.ThrowStopsScheduler` | protocol-runner/src/main/resources/web/lib/alpine.js:1 | after a job throws, whatever the jobs dequeue, no flush is ever scheduled again |
| `JobQueue.StuckForever` | protocol-runner/src/main/resources/web/lib/alpine.js:1 | with the flushing flag left set, no operation schedules a flush |
| `JobQueue.SelfDequeueSkipsNext` | protocol-runner/src/main/resources/web/lib/alpine.js:1 | the concrete input: a job that dequeues itself makes the flush skip the job behind it |
| `JobQueue.Scheduler.Enqueue` | protocol-runner/src/main/resources/web/lib/alpine.js:1 | `queueJob`: the job is in the queue once, the order is kept, and an idle scheduler has one flush scheduled |
| `JobQueue.Scheduler.Dequeue` | protocol-runner/src/main/resources/web/lib/alpine.js:1 | the job is not in the part of the queue still to be flushed; the queue stays without duplicates |
| `JobQueue.Scheduler.Flush` | protocol-runner/src/main/resources/web/lib/alpine.js:1 | the walk over a queue that its jobs change, terminating over a finite set of jobs |
| `Reactive.StepKeepsInv` | protocol-runner/src/main/resources/web/lib/alpine.js:5 | every enter, exit, pause, reset, stop, read and write keeps the two directions of the graph equal and duplicate-free, and the active effect on top of a stack without repeats |
| `Reactive.RunKeepsInv` | protocol-runner/src/main/resources/web/lib/alpine.js:5 | so does every run |
| `Reactive.CleanupEdges` | protocol-runner/src/main/resources/web/lib/alpine.js:5 | cleaning up removes exactly the edges of one effect |
| `Reactive.DepsAreReads` | protocol-runner/src/main/resources/web/lib/alpine.js:5 | after any run an effect depends on exactly what it read since its last start or its stop, while active with tracking on |
| `Reactive.NoMissedUpdate` | protocol-runner/src/main/resources/web/lib/alpine.js:5 | in every run, an effect not triggered since its last start, and that did not change its own dependencies, would still see what it saw by reading ordinary keys, testing for keys that are not built in, or listing keys |
| `Reactive.ChangeTouches` | protocol-runner/src/main/resources/web/lib/alpine.js:5 | a set, add or delete that makes an observation untrue touches the dependency it registered |
| `Reactive.UnchangedSetIsSilent` | protocol-runner/src/main/resources/web/lib/alpine.js:5 | setting the value a property has triggers nothing, also for NaN |
| `Reactive.TracksOrdinary` | protocol-runner/src/main/resources/web/lib/alpine.js:5 | reads register exactly for symbols that are not built in and names that are not one of six internal ones, membership tests for all keys but the built-in symbols |
| `Reactive.CodeRestoresContext` | protocol-runner/src/main/resources/web/lib/alpine.js:5 | whatever well-bracketed code does (effects calling effects, pauses, stops), behind it the same effect is active and tracking is on or off as before |
| `Reactive.PausedReadsAreFree` | protocol-runner/src/main/resources/web/lib/alpine.js:5 | reads inside a pause leave no trace |
| `Reactive.WritesAreKept` | protocol-runner/src/main/resources/web/lib/alpine.js:5 | a set or delete changes that property of that object and nothing else, and keeps the order of the keys, a new one last |
| `Reactive.ReadThenSetTriggersIff` | protocol-runner/src/main/resources/web/lib/alpine.js:5 | an effect that reads one property and ends is triggered by a later set of it if and only if the key is an ordinary one and the set adds the property or changes its value |
| `Reactive.StoppedIsTriggeredIff` | protocol-runner/src/main/resources/web/lib/alpine.js:5 | a stopped effect that has ended can still be triggered, at once or in any later run, if and only if it made a tracked read behind its stop |
| `Reactive.StoppedThenReads` | protocol-runner/src/main/resources/web/lib/alpine.js:5 | the concrete run: stopped while running, then one read |
| `EffectQueue.StepKeepsInv` | protocol-runner/src/main/resources/web/lib/alpine.js:1 | every step of user code, queue and flush keeps the triggered effects apart: each waits for its turn or has been missed |
| `EffectQueue.NothingMissedIff` | protocol-runner/src/main/resources/web/lib/alpine.js:1 | in every run: when a flush has emptied the queue, the effects still owed a run are exactly those missed; and no trigger is missed if and only if none reaches an effect whose place the flush has passed or is at, and no running job takes itself out in front of one that is owed |
| `EffectQueue.FlushServesAll` | protocol-runner/src/main/resources/web/lib/alpine.js:1 | flushes without late triggers run every effect triggered before or during them |
| `EffectQueue.MissedStays` | protocol-runner/src/main/resources/web/lib/alpine.js:1 | the flush never makes up for a missed trigger |
| `EffectQueue.ThrowBreaks` | protocol-runner/src/main/resources/web/lib/alpine.js:1 | a job that throws breaks the flush off, and no flush ever begins again |
| `EffectQueue.FlushedShowsData` | protocol-runner/src/main/resources/web/lib/alpine.js:1 | in every run, once a flush has emptied the queue, every live effect that was not missed, not taken out and did not change its own dependencies would still see what it saw: the page shows the data |
| `EffectQueue.LateTriggerRun` | protocol-runner/src/main/resources/web/lib/alpine.js:1 | a run from the start in which a late trigger leaves an effect showing an old value |
| `MockSelection.VerifyQuery` | protocol-common-jdbc/src/main/java/org/kendar/plugins/JdbcMockPlugin.java:80-99 | the query matches exactly or section by section, for 10000 or 1000 points |
| `MockSelection.SectionsByKind` | protocol-common-jdbc/src/main/java/org/kendar/plugins/JdbcMockPlugin.java:80-110 | a section fits if it is that of the query, `${...}`, or `@{...}` whose expression matches it |
| `MockSelection.MatchParameters` | protocol-common-jdbc/src/main/java/org/kendar/plugins/JdbcMockPlugin.java:56-78 | the loop adds 3, 1, 2 or 0 points for each parameter |
| `MockSelection.PointsByKind` | protocol-common-jdbc/src/main/java/org/kendar/plugins/JdbcMockPlugin.java:56-78 | 3 points for an equal parameter or two nulls, 2 for `@{...}` whose expression matches, 1 for `${...}`, else none |
| `MockSelection.CloserScoresMore` | protocol-common-jdbc/src/main/java/org/kendar/plugins/JdbcMockPlugin.java:36-78 | of two mocks that differ in one parameter, the one with the closer parameter has the greater score, and only it |
| `MockSelection.CloserIsPreferred` | protocol-common-jdbc/src/main/java/org/kendar/plugins/JdbcMockPlugin.java:36-78 | so a mock is not chosen if another one differs from it by a closer parameter |
| `MockSelection.ExpressionIsCut` | protocol-common-jdbc/src/main/java/org/kendar/plugins/JdbcMockPlugin.java:71-72 | of a regular expression of at least two characters, the last two are never tested |
| `MockSelection.CheckMatching` | protocol-common-jdbc/src/main/java/org/kendar/plugins/JdbcMockPlugin.java:36-54 | a mock is noted exactly when it takes part and beats the best score so far |
| `MockSelection.Select` | protocol-common/src/main/java/org/kendar/plugins/MockPlugin.java:60-64 | folding over any list of mocks selects the first one with the greatest score among those that match, or none |
| `MockSelection.FindMock` | protocol-common/src/main/java/org/kendar/plugins/MockPlugin.java:60-67 | a mock answers if and only if the first one with the greatest score has an index above 0, and it is that one |
| `MockSelection.NumberedZeroIsIgnored` | protocol-common/src/main/java/org/kendar/plugins/MockPlugin.java:60-67 | the concrete list: of two mocks for the very call the one numbered 0 is best, and nothing answers |
| `MockSelection.ExactBeatsTemplate` | protocol-common-jdbc/src/main/java/org/kendar/plugins/JdbcMockPlugin.java:80-99 | with fewer than 3000 parameters the exact query beats every template |
| `MockSelection.TemplateMayWin` | protocol-common-jdbc/src/main/java/org/kendar/plugins/JdbcMockPlugin.java:56-99 | from 3000 parameters on a template may tie with it: the bound is exact |
| `MockSelection.BestIsExact` | protocol-common-jdbc/src/main/java/org/kendar/plugins/JdbcMockPlugin.java:36-99 | so the choice falls on a template only if no mock has the very query |
| `MockSubstitution.SequentialIsSimultaneous` | protocol-common-jdbc/src/main/java/org/kendar/plugins/JdbcMockPlugin.java:131-141 | replacing one key after the other, in any order, equals one simultaneous substitution, unless a value holds or ends in the beginning of another key |
| `MockSubstitution.AnyOrder` | protocol-common-jdbc/src/main/java/org/kendar/plugins/JdbcMockPlugin.java:131-141 | two iteration orders of the same map give the same answer |
| `MockSubstitution.FreeValuesAnyOrder` | protocol-common-jdbc/src/main/java/org/kendar/plugins/JdbcMockPlugin.java:131-141 | in particular for placeholders, and for literals and captured values free of the signs that begin them |
| `MockSubstitution.OrderFreeIff` | protocol-common-jdbc/src/main/java/org/kendar/plugins/JdbcMockPlugin.java:131-141 | for a map of any size, all columns come out the same in all iteration orders if and only if no value holds, or ends in the beginning of, another key |
| `MockSubstitution.CapturedPlaceholder` | protocol-common-jdbc/src/main/java/org/kendar/plugins/JdbcMockPlugin.java:131-141 | the concrete captured value for which the order matters |
| `MockSubstitution.ReplaceInColumn` | protocol-common-jdbc/src/main/java/org/kendar/plugins/JdbcMockPlugin.java:134-137 | the loop over the map entries is the fold of the replacements |
| `MockSubstitution.WriteSelectResultParameter` | protocol-common-jdbc/src/main/java/org/kendar/plugins/JdbcMockPlugin.java:131-141 | every column of every record is replaced in place |
| `StartupGate.StepKeepsInv` | protocol-runner/src/main/java/org/kendar/Main.java:167-230 | every step of every thread keeps the count equal to the number of threads counted in, and the services published equal to the threads past their publication |
| `StartupGate.OpenMeansAllStarted` | protocol-runner/src/main/java/org/kendar/Main.java:190-216 | in every interleaving, an open gate means that every thread has registered its instance and added the filters of all its plugins |
| `StartupGate.OpensIff` | protocol-runner/src/main/java/org/kendar/Main.java:216-219 | the waiting thread goes through exactly when every thread has counted itself in |
| `StartupGate.DeadThreadShutsGate` | protocol-runner/src/main/java/org/kendar/Main.java:170-203 | a thread that returns early or fails before its count keeps the gate shut for ever |
| `StartupGate.FailureShutsGate` | protocol-runner/src/main/java/org/kendar/Main.java:170-203 | in every run, a thread that fails before its count, or returns at its start, keeps the gate shut in every later run |
| `StartupGate.FailureHidesService` | protocol-runner/src/main/java/org/kendar/Main.java:196-201 | a thread that fails between its count and its publication never publishes its service |
| `FilterList.OpenListCompleteIff` | protocol-runner/src/main/java/org/kendar/Main.java:192-219 | behind the open gate no filter is missing if and only if no two threads added to the shared list at the same time |
| `FilterList.OverlapLoses` | protocol-runner/src/main/java/org/kendar/Main.java:192-195 | the first overlapping write overwrites a filter that another thread had added |
| `FilterList.OverlapHappens` | protocol-runner/src/main/java/org/kendar/Main.java:192-195 | whenever two threads are about to add a filter, an interleaving in which they do |
| `FilterList.OverlappingRun` | protocol-runner/src/main/java/org/kendar/Main.java:167-195 | a run from the start in which two threads with filters overlap |
| `FilterList.OpensWithoutFilter` | protocol-runner/src/main/java/org/kendar/Main.java:167-219 | a run from the start to an open gate with a filter missing |
| `StartupGate.OpensWithServicesIff` | protocol-runner/src/main/java/org/kendar/Main.java:190-219 | in every interleaving, the gate opens with all services published if and only if no thread stands, or has failed, between its count and its publication |
| `StartupGate.OpensBeforeServices` | protocol-runner/src/main/java/org/kendar/Main.java:190-219 | a run from the start to an open gate with no service published |
| `StartupGate.OpensAfterServices` | protocol-runner/src/main/java/org/kendar/Main.java:190-219 | a run from the start to an open gate with every service published |

## Left out

- Reconciler: lists with duplicate keys, on which the code only warns; the conversion of keys to property names, which
  is taken as given by `Key`; nested `x-if` elements, transitions and the evaluation of the template's expressions.
- Reactive: arrays, Map and Set wrappers, refs, computed values, `readonly` and shallow proxies, the prototype chain, and
  the nesting of objects inside objects; they would add cases to the theorem on plain objects.
- EffectQueue: the switch `st`, which makes triggered effects run at once instead of being queued.
- JobQueue: that the host runs the microtask; `nextTick` and its holding of the queue.
- Utf8, IntegerCodec: base64, hex, latin1 and UTF-16 codecs, floating point, the unsigned `readUInt`/`writeUInt` (the
  same loops without the borrow), and the splitting of very long strings into groups of 4096 code units.
- StringDecoder: encodings other than UTF-8, and `end` with a last chunk, which is `write` followed by `end`.
- BlockHash: string input, which is converted to bytes first, and calls of `update` or `digest` after `digest`.
- Sha512.ConstantValue: speaks of one pair of halves; that each table entry is the rounded root is checked where the
  tables are declared.
- Sha512: SHA-1, SHA-224, SHA-256 and SHA-384, which share the block buffer proved here.
- BufferList: `_getString` and `join` (string mode), and that slices of a buffer share its memory.
- Readable.Stream.Read: the `_read` hook may push and unshift any number of times, but does not call `read` itself.
- Readable: the listeners of the `readable` event, its coalescing, and the scheduling of further reads, object mode, string decoding, pipes, destruction,
  and the rounding of the high water mark by bit smearing, which is represented by the least power of two it computes.
- Writable: errors, destruction and `_writev`; the string conversion of chunks.
- EventEmitter: the special events `newListener`, `removeListener` and `error`, the listener limit warning, and
  `removeAllListeners`.
- MockSelection: the template parser and the regular expressions, which are parameters, with the exceptions they may
  throw, also for `@{...}` around fewer than two characters; what `handle` does with the mock it found (the counters of `nthRequest` and `count`); 32-bit overflow of the
  score.
- MockSubstitution: how the captured variables are collected, and null values.
- StartupGate: what a thread does before it registers, beyond that it may return or fail; sockets, logging and the global
  plugins; memory growth of the shared list, whose `add` is modelled as reading the length and then writing at it.
- The user interface of the Swagger UI bundle, the command line, plugin loading, storage and the wire protocols.
