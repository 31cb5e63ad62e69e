# A verified model of the framework's caches, codecs and protocols

This project models the stateful, hand-written cores of a C++ framework for board
management controllers, and proves what each of them is for. It verifies with
`dafny verify dfyconfig.toml`.

**The path cache of the MDB client** (`Recency`, `LruCache`, `Mdb…`). An LRU cache of object
paths with two reverse indices, reference-counted signal subscriptions, a queue of deferred
clean-ups for each thread, and two tables that keep two threads from filling the same key or
creating the same subscription. Two mutexes guard it, and both are released around bus calls.
`MdbProtocol` is the transition system: a step is one region under a mutex, or one answer of
the bus; between any two of them any other thread may go on. The theorems hold in every state
of every run of any number of threads. The class in `MdbService` keeps the program's fields,
and its methods are proved to do what the transition system says the regions do, from
registering as a creator to storing the created subscription over whatever is there.

One property fails, and exactly there: a thread whose wait for another creator times out
creates the subscription a second time and stores it over the first. `StepConservesIff` says
that no other step loses a reference; `ConservedWithoutTimeouts` that none does unless a wait
times out; `TimeoutLeavesPathUnwatched` is a run in which one does, and a cached path stays
without any subscription. `MdbMatches` keeps the same account of the matches registered on the
bus: each has one keeper, a stored subscription or a thread, unless a step stores over a
subscription or the bus fails to remove a match (`RunMatchesIff`).

**The JSON encoder and decoder** (`Json…`). The printer carries the number base of its stream:
a `\u` escape switches it to hexadecimal for good, so integers printed later are not decimal.
`RoundTripIff` gives the exact condition for decoding to give an encoded value back, and
`StickyHexLosesANumber` a value that is lost.

**D-Bus marshalling** (`Dbus…`). Signature inference, the writer and the reader, with messages
as typed trees. A dictionary that mixes both its key types and its value types is given a
signature that is no type, and is refused by the writer (`MixedDictIsRefused`). `WrittenIff`
says exactly what is written, counting the depth budget level by level. Keys of several types
in one dictionary all come back as text, which is the one further condition in `ReturnsIff`.

**Checksums** (`CrcDivision`, `Crc32`, `JamCrc`, `Crc8`). The table-driven forms are proved to
be bit-at-a-time polynomial division, for every message and start, and to see every burst
within the width of the register.

**The configuration loader** (`Config…`). Recursion over a finite set of files, ended by the
set of files that are being loaded. A root file loads if and only if every path of references
from it is clean; then nothing that can be reached leads back to itself, and everything that
can be reached has been merged.

**Timers** (`TimerStop`, `TimerRuns`, `TimerFinal`, `TimerSilence`). A stop that waits promises
two things, and both fail in places; for each the exact condition is given at every moment of
every run, restarts of repeating timers included. That no callback armed before it is still
running stays kept, short of arming the timer again, if and only if it is kept now and the
state is orderly (`StaysFinalIff`): the active flag is set while a callback runs, and of two
handlers able to run neither can end before it has armed the timer. Over a whole run that comes
to never arming the timer during a callback (`FinalIffQuiet`). That the timer then stays silent
until somebody starts it from outside is kept if and only if the stop begins while the timer is
calm (`StopSilencesIff`): no handler is bound to restart, at most one is live, and the active
flag is set while a callback runs. The program violates this in two ways:
`RepeatingTimerRunsAfterStop` restarts in the window after its check, and in
`OverlapIsNotSilenced` the next callback begins before the last has cleared the flag.

**Protocols and smaller state machines.** The pending-call table of a D-Bus connection
(`PendingCalls`), the shutdown gate of inbound calls
(`CallGate`), parents and children of objects and the way of events up the tree
(`ObjectForest`), the path normaliser (`PathNormalize`), the D-Bus type checker
(`MdbValidator`), the cached ISO formatter (`IsoTime`, `TimeCache`), and the debouncers
(`Debounce`).

Code that updates fields is modelled by classes and methods with the same fields and loops;
each method is proved equal to a specification function, and what the program promises is
proved about those functions. What the model takes from outside enters as parameters: the
answers of the bus, the success of sending, the contents of files, the decoded keys of a
filter, how the order of a hash set comes out, and whether `strtod` accepts a number.

Where the code and what its names suggest disagree, the model follows the code:
`std::hex` stays set after a `\u` escape; a timed-out wait lets two creators in; a mixed
dictionary gets the signature `a{a{sv}}`; `read_args` goes by the type codes of the signature,
so that a struct among the arguments is not entered; a repeating timer may arm itself after
it has been stopped; years from 10000 on are formatted with a character that is no digit; until
something has settled, a counting debouncer takes the sample -1 for nothing.

## Model

| member | source | states |
|---|---|---|
| Recency.RunIsRecencyOrder | include/mc/algorithm/lru_cache.h:72-136 | After any run of get, put, erase, clear and resizing, the keys are distinct, stand in strictly decreasing order of their last use, and fit a non-zero maximum |
| Recency.EvictionTakesLeastRecentlyUsed | include/mc/algorithm/lru_cache.h:218-238 | Whatever an operation evicts was used strictly longer ago than every key that stays, is gone afterwards, and is reported with the value it had |
| Recency.PutKeeps | include/mc/algorithm/lru_cache.h:91-111 | A put binds its key, drops at most one other binding, and reports exactly that one |
| Recency.ShrinkKeeps | include/mc/algorithm/lru_cache.h:161-169 | Resizing keeps the most recent entries in order and reports all others, oldest first |
| LruCache.LinkedKey | include/mc/algorithm/lru_cache.h:72-85 | The hash map holds exactly the keys of the list, and its iterator for a key points at the node with that key's value |
| LruCache.LruCache.Get | include/mc/algorithm/lru_cache.h:72-85 | A hit returns the cached value and moves its node to the front |
| LruCache.LruCache.Put | include/mc/algorithm/lru_cache.h:91-111 | List and map together do what the recency sequence does, evicting before they grow over the maximum |
| LruCache.LruCache.Erase | include/mc/algorithm/lru_cache.h:117-128 | Erasing removes just that key, and says whether it was there |
| LruCache.LruCache.EvictLru | include/mc/algorithm/lru_cache.h:218-238 | Exactly the tail is removed and handed to the callback |
| LruCache.LruCache.SetMaxSize | include/mc/algorithm/lru_cache.h:161-169 | The eviction loop leaves the longest allowed prefix of the recency sequence |
| MdbIndex.AgreesAdd | src/mdb/mdb_service.cpp:250-260 | Filing a new key keeps an index equal to the cached keys with each tag, without empty buckets |
| MdbIndex.AgreesRemove | src/mdb/mdb_service.cpp:262-285 | Unfiling an entry keeps the index equal to what remains, and drops the bucket it empties |
| MdbRegions.UpdateKeepsCache | src/mdb/mdb_service.cpp:796-869 | Inserting, replacing and skipping all keep both indices and the size bound, and leave the key bound to the new path and interface |
| MdbRegions.UpdateHolds | src/mdb/mdb_service.cpp:806-869 | The reference the caller brings and those of the old entries are those of the new entries and the clean-ups queued |
| MdbRegions.ShrinkHolds | src/mdb/mdb_service.cpp:83-99 | Every reference held by an evicted entry passes to a clean-up task |
| MdbRegions.CleanupKeepsCache | src/mdb/mdb_service.cpp:335-363 | Cleaning a key up keeps both indices equal to the entries that stay |
| MdbRegions.DecreaseTakesOne | src/mdb/mdb_service.cpp:288-331 | Giving a reference back takes exactly one from the count of its subscription |
| MdbSafety.StepKeepsCache | src/mdb/mdb_service.cpp:250-285 | Both indices agree with the cache after every step of every thread |
| MdbSafety.EveryRunIsSafe | src/mdb/mdb_service.cpp:982-1044 | In every run: index agreement, each fill and each creation registered by its own thread, and bounded waits |
| MdbSafety.OneThreadFillsAKey | src/mdb/mdb_service.cpp:890-932 | In every run, time-outs included, two threads never fill the same cache key |
| MdbConservation.StepConservesIff | src/mdb/mdb_service.cpp:591-701 | A step loses or invents a reference if and only if it stores a subscription over one in use |
| MdbConservation.StepKeepsCountsPositive | src/mdb/mdb_service.cpp:288-331 | No subscription stays in the map without a reference |
| MdbRuns.RunConservesIff | src/mdb/mdb_service.cpp:654-701 | References are conserved throughout a run if and only if no step of it overwrites a subscription in use |
| MdbRuns.ConservedWithoutTimeouts | src/mdb/mdb_service.cpp:591-622 | In every interleaving in which no wait times out, each count is the cached entries, the queued clean-ups and the references in flight |
| MdbRuns.CachedEntriesAreWatched | src/mdb/mdb_service.cpp:844-869 | In a conserved state every cached path has a live subscription that counts it |
| MdbRuns.NoneRemovedEarly | src/mdb/mdb_service.cpp:288-331 | A subscription leaves the map only when no entry, clean-up or thread holds it |
| MdbMatches.StepMatchesIff | src/mdb/mdb_service.cpp:624-701 | A step loses track of a registered match if and only if it stores over a subscription with matches, or the bus fails to remove matches it is asked to remove |
| MdbMatches.RunMatchesIff | src/mdb/mdb_service.cpp:288-331 | Each registered match has one keeper throughout a run, and nothing else has any, if and only if no step of the run does either |
| MdbMatches.MatchedWithoutTimeouts | src/mdb/mdb_service.cpp:591-701 | If no wait times out and the bus removes what it is asked to remove, no match is lost, whatever else throws |
| MdbMatches.CachedMatchesAreRegistered | src/mdb/mdb_service.cpp:844-869 | Then the matches of every cached path are registered on the bus |
| MdbMatches.NothingLeaks | src/mdb/mdb_service.cpp:288-331 | And with all threads idle nothing is registered but the matches of stored subscriptions |
| MdbHistory.SubscribedBeforeVerified | src/mdb/mdb_service.cpp:768-793 | Every path about to be cached was returned by a GetPath call made after its thread took the subscription, and the thread has held it since |
| MdbHistory.PublishStoresTarget | src/mdb/mdb_service.cpp:844-869 | What is then stored is that very path |
| MdbHistory.WaitingIsBounded | src/mdb/mdb_service.cpp:890-932 | However a run interleaves, a waiting thread stops waiting after at most the allowed number of attempts |
| MdbTimeout.TimeoutLeavesPathUnwatched | src/mdb/mdb_service.cpp:610-616 | A run of two threads in which a wait times out ends with a cached path whose subscription does not exist |
| MdbService.MdbService.UpdateCacheAndIndicesLocked | src/mdb/mdb_service.cpp:844-869 | The program's sequence of lookups, index edits and puts does the whole region's effect on cache, indices and queue |
| MdbService.MdbService.OnCacheEvict | src/mdb/mdb_service.cpp:83-99 | The callback unfiles each evicted entry and queues its clean-up, in order |
| MdbService.MdbService.CleanupCacheEntryLocked | src/mdb/mdb_service.cpp:335-363 | Removes one entry with its index entries and queues its clean-up |
| MdbService.MdbService.TryGetCachedPath | src/mdb/mdb_service.cpp:872-888 | A hit needs an entry at least as permissive about case, and moves it to the front even if it is refused |
| MdbService.MdbService.SetMaxCacheSizeLocked | src/mdb/mdb_service.cpp:1178-1188 | Resizing evicts, unfiles and queues |
| MdbService.MdbService.CollectInvalidatedLocked | src/mdb/mdb_service.cpp:466-490 | Finds the entries of a bucket whose filter names a changed property |
| MdbService.MdbService.DecreaseSubscriptionRefcount | src/mdb/mdb_service.cpp:288-331 | The last reference removes the subscription and returns its two matches |
| MdbService.MdbService.LookupRound | src/mdb/mdb_service.cpp:890-932 | One round of the wait loop and the registration that follows it are the system's lookup region, whatever the other threads do |
| MdbService.MdbService.Publish | src/mdb/mdb_service.cpp:1011-1032 | Caching a verified path and ending the registration under one lock are the system's publishing region |
| MdbService.MdbService.FinishQuery | src/mdb/mdb_service.cpp:982-1010 | A query without a path to cache ends only its own registration |
| MdbService.MdbService.TryIncrementOnce | src/mdb/mdb_service.cpp:591-622 | One round of the wait loop: adds one reference to an existing subscription and changes nothing else, or tells the caller to create it, at once or after the last wait, or to wait |
| MdbService.MdbService.SubscribeRound | src/mdb/mdb_service.cpp:654-676 | That round and the registration as creator are the system's subscribing region |
| MdbService.MdbService.StoreSubscription | src/mdb/mdb_service.cpp:692-696 | Storing the created subscription, over whatever is there, and ending the registration are the system's storing region |
| MdbService.MdbService.AbandonSubscription | src/mdb/mdb_service.cpp:678-701 | A failed creation ends only its own registration |
| MdbService.MdbService.ReleaseUnverified | src/mdb/mdb_service.cpp:768-793 | A path that a second answer did not confirm gives its reference back |
| MdbService.MdbService.ProcessPendingCleanup | src/mdb/mdb_service.cpp:101-115 | Empties the queue in order, one reference a task |
| MdbService.DrainTakesHolds | src/mdb/mdb_service.cpp:101-115 | Draining the queue takes from every count exactly what the queue held of it |
| JsonTextProofs.StringReads | libraries/mcbase/src/json.cpp:459-555 | A printed string is read back as what it shows, and only within the length limit |
| JsonTextProofs.ShownIsSelf | libraries/mcbase/src/json.cpp:163-202 | A string shows as itself exactly when none of its bytes is escaped for not being ASCII |
| JsonTextProofs.ShownDistinct | libraries/mcbase/src/json.cpp:163-202 | Different strings are shown differently, so object keys do not collide |
| JsonNumberProofs.DecimalReads | libraries/mcbase/src/json.cpp:557-614 | An integer printed in decimal is read back whole, whatever follows it |
| JsonNumberProofs.HexReads | libraries/mcbase/src/json.cpp:284-296 | An integer printed in hexadecimal is read back exactly when it is one decimal digit |
| JsonReadBack.ValueReads | libraries/mcbase/src/json.cpp:403-427 | The parser, started on the text of any value with anything behind it, returns what that text shows and stops right behind it |
| JsonRoundTrip.DecodeOfEncode | libraries/mcbase/src/json.cpp:342-352 | Decoding an encoded value gives exactly what its text shows, if the text is within the input limit |
| JsonRoundTrip.BackAlikeIff | libraries/mcbase/src/json.cpp:220-313 | What a text shows is the value exactly when it fits the limits, no integer is garbled by hexadecimal and no string by escaping |
| JsonRoundTrip.RoundTripIff | libraries/mcbase/src/json.cpp:100-313 | Decoding an encoding gives the value back, up to the width and sign of integers and key order, if and only if text and value are within the limits, integers after a `\u` escape have one digit, and no string is escaped for not being ASCII |
| JsonRoundTrip.RoundTripPlain | libraries/mcbase/src/json.cpp:710-760 | With nothing escaped as `\u`, every value within the limits comes back, compact or pretty |
| JsonRoundTrip.PrintsIff | libraries/mcbase/src/json.cpp:122-141 | The encoder fails only, and always, on values nested too deep |
| JsonRoundTrip.StickyHexLosesANumber | libraries/mcbase/src/json.cpp:185-196 | An array of a control character and the number 18 does not come back |
| JsonEncoder.SortedInOrder | libraries/mcbase/src/json.cpp:244-282 | With key sorting on, the keys are printed in byte order, each as often as before |
| JsonEncoder.Encoder.EncodeString | libraries/mcbase/src/json.cpp:163-202 | Appends the quoted text, and leaves the stream hexadecimal exactly if it printed a `\u` escape |
| JsonEncoder.Encoder.EncodeValue | libraries/mcbase/src/json.cpp:284-313 | The streaming encoder appends the text of the value in the base the stream is in, or fails |
| JsonEncoder.Encoder.Encode | libraries/mcbase/src/json.cpp:115-120 | The encoder object returns the encoding of the value |
| JsonDecoder.Decoder.ParseString | libraries/mcbase/src/json.cpp:532-555 | The loop over `m_pos` reads the string at the position and stops behind its quote |
| JsonDecoder.Decoder.ParseNumber | libraries/mcbase/src/json.cpp:557-614 | The digit loops read the number at the position |
| JsonDecoder.Decoder.ParseValue | libraries/mcbase/src/json.cpp:403-427 | The recursive descent over `m_pos` reads the value at the position, or fails |
| JsonDecoder.Decoder.Decode | libraries/mcbase/src/json.cpp:342-352 | The decoder object accepts one value with white space around it, and returns it |
| DbusRoundTrip.InferredIsCompleteIff | libraries/mcdbus/src/message.cpp:113-203 | An inferred signature is one complete type exactly when no mixed dictionary is part of it; validity needs its length limit besides |
| DbusRoundTrip.OwnWrites | libraries/mcdbus/src/message.cpp:1019-1134 | What the writer makes of a value under its own signature conforms to it, and the reader returns the value |
| DbusRoundTrip.VariantWrites | libraries/mcdbus/src/message.cpp:1001-1017 | What the writer makes of a variant carries the inferred signature, and the reader, with the depth it is at, returns the value |
| DbusReturns.WrittenReturns | libraries/mcdbus/src/message.cpp:844-897 | Whatever can be written has no mixed dictionary, conforms to one complete type, never meets the reader's depth limit, and is returned up to its normal form if and only if every dictionary has keys of one type |
| DbusLimits.WrittenIff | libraries/mcdbus/src/message.cpp:1001-1134 | A value is written, at any depth, if and only if no mixed dictionary is in it, no container is too large, and its levels fit the rest of the depth budget |
| DbusLimits.ReturnsIff | libraries/mcdbus/src/message.cpp:767-897 | A value is written and returned if and only if that holds and every dictionary in it has keys of one type |
| DbusLimits.MixedDictIsRefused | libraries/mcdbus/src/message.cpp:158-163 | Every dictionary that mixes both keys and values infers `a{a{sv}}`, which is no complete type, and is refused at every depth |
| DbusLimits.MixedInsideIsRefused | libraries/mcdbus/src/message.cpp:1064-1134 | So is every value that contains one, at whatever place |
| DbusReturns.ReadArgsIff | libraries/mcdbus/src/message.cpp:614-625 | `read_args` returns one value for each argument exactly when no argument is a struct |
| DbusReturns.StructSwallows | libraries/mcdbus/src/message.cpp:885-892 | A struct in front always makes `read_args` return something else |
| DbusMessage.VariantToSignature | libraries/mcdbus/src/message.cpp:166-203 | The inference by appending to a signature yields the inferred signature |
| DbusMessage.CheckDictAllType | libraries/mcdbus/src/message.cpp:96-111 | One pass tells whether all keys and whether all values have one type |
| DbusMessage.MessageWriter.WriteVariant | libraries/mcdbus/src/message.cpp:1001-1009 | The writer's in-place form appends the variant the specification gives, or fails |
| DbusMessage.MessageWriter.WriteValue | libraries/mcdbus/src/message.cpp:1019-1062 | The same for a value under a given type |
| DbusMessage.MessageReader.ReadValue | libraries/mcdbus/src/message.cpp:844-897 | The reader moves over one argument and returns what the specification reads from it |
| DbusMessage.MessageReader.ReadArgs | libraries/mcdbus/src/message.cpp:614-625 | The loop over the signature returns what the specification of `read_args` does |
| CrcDivision.FastIsDivision | src/crypto/crc32.cpp:81-106 | Shifting a byte out and adding the remainder of its index is eight steps of bitwise division, in both bit orders |
| CrcDivision.DivideConcat | src/crypto/crc32.cpp:81-106 | Dividing two messages in turn is dividing their concatenation |
| CrcDivision.DivideInjective | src/crypto/crc32.cpp:81-106 | Messages with a common end keep different registers different |
| CrcDivision.BurstDetected | src/crypto/crc32.cpp:81-106 | Messages of one length that differ only inside four consecutive bytes leave different remainders |
| Crc32.TableIsRemainder | src/crypto/crc32.cpp:17-48 | Every one of the 256 entries is the remainder of its index by 0x04C11DB7 |
| Crc32.Calculate | src/crypto/crc32.cpp:81-94 | The table loop computes bit-at-a-time division, complemented if asked |
| Crc32.ChecksumChains | src/crypto/crc32.cpp:81-94 | The checksum of a concatenation is got by chaining the parts |
| Crc32.ChecksumDetects | src/crypto/crc32.cpp:81-94 | Messages that differ inside four consecutive bytes have different checksums |
| JamCrc.TableIsRemainder | src/crypto/crc32.cpp:49-79 | Every entry of the reflected table is the remainder of its index by 0xEDB88320 |
| JamCrc.Calculate | src/crypto/crc32.cpp:96-106 | The table loop computes reflected bit-at-a-time division, complemented |
| JamCrc.ChecksumChains | src/crypto/crc32.cpp:96-106 | Chaining works with the first result complemented back |
| JamCrc.ChecksumDetects | src/crypto/crc32.cpp:96-106 | Messages that differ inside four consecutive bytes have different checksums |
| Crc8.Calculate | src/crypto/crc8.cpp:55-64 | The table loop computes bit-at-a-time division by 0x07 from zero |
| Crc8.FastIsDivision | src/crypto/crc8.cpp:16-64 | One lookup in the table is eight steps of the division |
| Crc8.ByteDetected | src/crypto/crc8.cpp:55-64 | Messages of one length that differ in one byte have different checksums |
| ConfigPlan.AppendUniqueKeeps | libraries/mcapp/src/application.cpp:240-256 | Appending modules loses none, repeats none and keeps those before in place |
| ConfigPlan.PerformKeeps | libraries/mcapp/src/application.cpp:303-323 | Service names and modules stay unique, whatever is merged |
| ConfigOutcome.LoadsIff | libraries/mcapp/src/application.cpp:460-498 | A file loads if and only if on every path of references from it all files are sound and none comes back |
| ConfigOutcome.LoadedIsAcyclic | libraries/mcapp/src/application.cpp:460-498 | After a successful load no path of references visits a file twice |
| ConfigOutcome.ReachedIffOpened | libraries/mcapp/src/application.cpp:500-618 | After a successful load exactly the files that can be reached were opened, and everything each of them asks for was done |
| ConfigLoader.Loader.LoadPlanFile | libraries/mcapp/src/application.cpp:460-498 | Loads one file, and restores the set of files being loaded on every return |
| ConfigLoader.Loader.LoadManifestDict | libraries/mcapp/src/application.cpp:526-566 | Imports, service directories and services of a manifest are merged in order, up to the first failure |
| ConfigLoader.Loader.LoadPlanVariant | libraries/mcapp/src/application.cpp:568-618 | A document is treated as a manifest, as a list of items, or as neither |
| ConfigLoader.Loader.LoadConfig | libraries/mcapp/src/application.cpp:620-630 | The imperative loader succeeds if and only if every path from the root file is clean, or that file is missing and was not asked for explicitly; names are unique, and all that can be reached has been loaded |
| PendingCalls.NextSerialIs | libraries/mcdbus/src/connection_impl.cpp:36-49 | A serial given is in range and not pending, and is refused only after every serial tried was pending |
| PendingCalls.RefusedOnlyWhenFull | libraries/mcdbus/src/connection_impl.cpp:36-49 | A serial is refused only if at least a million calls are pending |
| PendingCalls.EveryRunAccounts | libraries/mcdbus/src/connection_impl.cpp:83-127 | In every run each promise is pending, once, or has exactly one completion |
| PendingCalls.ExactlyOneCompletion | libraries/mcdbus/src/connection_impl.h:21-41 | Once the table is torn down, in any order, every promise made has exactly one completion |
| PendingCalls.Connection.GetNextSerial | libraries/mcdbus/src/connection_impl.cpp:36-49 | The search loop with its wrapping counter |
| PendingCalls.Connection.AsyncSendWithReply | libraries/mcdbus/src/connection_impl.cpp:83-127 | Sends and registers, or completes at once with a failure |
| PendingCalls.Connection.ProcessReply | libraries/mcdbus/src/connection_impl.cpp:294-310 | A reply completes and removes exactly the call it answers |
| TimerStop.StopIsFinal | libraries/mcbase/src/timer.cpp:92-132 | In every run that never arms the timer while a callback runs, after a returned `stop(true)` no callback armed before it is running |
| TimerStop.NoneCanBegin | libraries/mcbase/src/timer.cpp:111-120 | Nor can one pass its checks any more |
| TimerFinal.StaysFinalIff | libraries/mcbase/src/timer.cpp:49-132 | At every moment of every run: no callback armed before a returned stop runs, now or after anything short of arming the timer, if and only if none runs now, the active flag is set while a callback runs, and of two handlers able to run neither can end before it has armed the timer |
| TimerFinal.FinalIffQuiet | libraries/mcbase/src/timer.cpp:49-132 | That holds from every moment of a run if and only if the run never arms the timer during a callback |
| TimerFinal.ArmingAmidBreaks | libraries/mcbase/src/timer.cpp:49-62 | Arming the timer, by whomever, while a callback runs can be continued so that a stop returns while an earlier callback still runs |
| TimerSilence.StopSilencesIff | libraries/mcbase/src/timer.cpp:84-109 | At every moment of every run: a stop begun now leaves the timer silent until somebody starts it from outside, if and only if no handler is bound to restart, at most one handler is in its callback or past the flag with the generation still its own, and the active flag is set while a callback runs |
| TimerSilence.OverlapIsNotSilenced | libraries/mcbase/src/timer.cpp:69-88 | A run in which a repeating timer's next callback begins before the last has cleared the active flag; a stop begun then does not silence it, though nobody is bound to restart |
| TimerSilence.QuietIsCalmIff | libraries/mcbase/src/timer.cpp:84-88 | Before the timer has been armed during a callback only a handler bound to restart disturbs it |
| TimerStop.RepeatingTimerRunsAfterStop | libraries/mcbase/src/timer.cpp:84-88 | A run from the idle timer in which a repeating timer restarts after it has been stopped, and a callback runs after the stop has returned |
| CallGate.ClosedForGood | libraries/mcapp/src/dbus_proto.cpp:315-343 | In every run, once a `stop_and_wait` has returned, no call is being handled and every later one is refused |
| CallGate.Gate.TryEnter | libraries/mcapp/src/dbus_proto.cpp:315-323 | A step of the transition system, by which a posted call gets in exactly if nobody has begun to shut down |
| CallGate.Gate.Leave | libraries/mcapp/src/dbus_proto.cpp:325-334 | A step of the transition system; waiting stops are woken exactly if the gate is closed and nobody is left inside |
| CallGate.Gate.Close | libraries/mcapp/src/dbus_proto.cpp:336-339 | A step of the transition system, from which on `TryEnter` refuses |
| CallGate.Gate.MayReturn | libraries/mcapp/src/dbus_proto.cpp:336-343 | A waiting stop returns, as a step of the transition system, exactly if no call is inside |
| ObjectForest.EveryRunLinks | libraries/mcbase/src/object.cpp:211-263 | Whatever is created, placed and destroyed, an object is in another's list, once, exactly if that is its parent |
| ObjectForest.DestroyLinks | libraries/mcbase/src/object.cpp:378-402 | Destroying an object leaves its children without a parent and its parent without it, and nothing else changed |
| ObjectForest.PlacingKeepsForestIff | libraries/mcbase/src/object.cpp:437-457 | Placing an object keeps every chain of parents finite exactly if it is not placed under itself or a descendant |
| ObjectForest.ProperRunsKeepForest | libraries/mcbase/src/object.cpp:437-457 | So every run of such placements ends in a forest |
| ObjectForest.TwoPlacementsMakeACycle | libraries/mcbase/src/object.cpp:437-457 | Placing a parent under its child makes a cycle, which nothing prevents |
| ObjectForest.UntilAcceptedIs | libraries/mcbase/src/object.cpp:597-636 | The visits are a prefix of the whole way, nobody but the last accepts, and it is the whole way unless the last does |
| ObjectForest.Objects.SetParentOf | libraries/mcbase/src/object.cpp:437-457 | Relinks, leaves the old list and joins the new one |
| ObjectForest.Objects.CleanUp | libraries/mcbase/src/object.cpp:378-402 | The destructor's loop does the specified clean-up |
| ObjectForest.Objects.Propagate | libraries/mcbase/src/object.cpp:620-636 | In a forest an event ends after visiting filters, the object and its ancestors in order, up to the first that accepts |
| PathNormalize.NormalizedForm | libraries/mcbase/src/filesystem.cpp:355-397 | The result has no `.`, has `..` only in front of a relative path, and is a lone dot if nothing is left of one |
| PathNormalize.NormalizeIsIdempotent | libraries/mcbase/src/filesystem.cpp:355-397 | Normalising twice changes nothing more |
| PathNormalize.NormalizeResolves | libraries/mcbase/src/filesystem.cpp:355-397 | The result leads where the path leads, from every directory, or from the root |
| PathNormalize.NormalizeParts | libraries/mcbase/src/filesystem.cpp:355-397 | The loop over the components computes the normal form |
| MdbValidator.TypeDecides | src/mdb/mdb_validator.cpp:54-168 | `check_type` accepts exactly the values of the type its signature reads, with the bounds of every integer type |
| MdbValidator.TypesDecide | src/mdb/mdb_validator.cpp:136-153 | A signature of several types, or of none, accepts exactly the arrays whose members fit them one by one |
| IsoTime.CivilRoundTrip | libraries/mcbase/src/time.cpp:94-117 | The date and time of an instant are valid and give the instant back |
| IsoTime.YearStartIs | libraries/mcbase/src/time.cpp:94-117 | Years start where counting leap days by the Gregorian rule puts them |
| IsoTime.PrintableIff | libraries/mcbase/src/time.cpp:229-272 | Four digits suffice for the year exactly before the year 10000 |
| IsoTime.IsoRoundTripIff | libraries/mcbase/src/time.cpp:119-151 | Parsing the text of an instant from 1970 on gives the same millisecond if and only if the instant is before the year 10000 |
| TimeCache.Cache.UpdateTimePart | libraries/mcbase/src/time.cpp:194-206 | Patches two digits of the text, and only if the value has changed |
| TimeCache.Cache.FormatSeconds | libraries/mcbase/src/time.cpp:229-272 | Whatever earlier calls left, the patched text is that of the new second, in every year |
| TimeCache.Cache.ToString | libraries/mcbase/src/time.cpp:274-306 | Whatever earlier calls left, the text is that of formatting from scratch, milliseconds included, in every year |
| Debounce.SettledGrows | src/debounce/continue.cpp:26-54 | A sample settles its own run or leaves the latest settled value |
| Debounce.Continue.GetDebounceVal | src/debounce/continue.cpp:26-54 | For all samples, returns the value of the latest run that reached the threshold, or nothing; runs of -1 before the first such run do not count |
| Debounce.BinaryContinue.GetDebounceVal | src/debounce/binary_continue.cpp:27-53 | For all samples, the same with a threshold for each level, and with other samples never settling |
| Debounce.TrimmedMeanBetween | src/debounce/average.cpp:25-55 | The mean without the least and the greatest sample lies between the two |
| Debounce.Average.GetDebounceVal | src/debounce/average.cpp:25-68 | Returns the trimmed mean of the last samples as an unsigned byte, once the window is full |
| Debounce.SortedMiddle | src/debounce/median.cpp:25-54 | The middle of the sorted window has at most as many samples below it as its place, and more not above it |
| Debounce.OrderStatisticUnique | src/debounce/median.cpp:25-54 | Only one value has that property |
| Debounce.Median.GetDebounceVal | src/debounce/median.cpp:25-67 | Returns that middle value of the last samples as an unsigned byte, once the window is full |

## Left out

MDB client:

- MdbHistory.SubscribedBeforeVerified: does not claim that a cached path is fresh, because a signal can land between the check and the insertion
- MdbConservation.StepConservesIff: counts references by the key that joins path and interface with a colon, as the program's map does
- handlers that a bus call runs on the calling thread are further threads of the model; re-entry of a recursive mutex on one thread is not modelled
- the subscription to name-owner changes, exceptions from bus calls other than a failed answer, and the queries that are passed on to the mapper service

JSON:

- JsonRoundTrip.RoundTripIff: leaves out doubles, which the encoder's model does not print, and 8-bit integers, which are streamed as characters; values are seen up to the width and sign of integers and key order
- JsonDecoder.Decoder.ParseNumber: keeps the text of a number with a fraction or an exponent; whether its value is in range is a parameter
- blobs and extension types, and overlong or malformed UTF-8: strings are sequences of bytes

D-Bus:

- writing under a signature the caller gives, structs on the writer's side, object paths, signatures and blobs as values, and conversions of a basic value to another type than signed bytes and dictionary keys undergo
- limits of libdbus itself, and its check that strings are UTF-8

Configuration:

- ConfigLoader.Loader.LoadConfig: takes paths as already resolved and directory listings as given, and does not model values of an unexpected type, on which the program throws
- what the logging configuration says: whether it is accepted is a parameter

Protocols and utilities:

- PendingCalls.EveryRunAccounts: covers calls that arrive without a serial, as all callers in the repository send them; whether libdbus accepts a message is a parameter
- TimerStop.StopIsFinal: is about stops on other threads than the callback's, which return without waiting on that one; the timer's own destruction and its weak pointers are not modelled, and the timer is a transition system without a class beside it
- CallGate.ClosedForGood: takes the mutex-protected regions as single steps
- ObjectForest.EveryRunLinks: lets one thread act at a time, and callers hold the objects they name; assignment between objects, names, connections and event filters' own lists are left out
- ObjectForest.Objects.Propagate: handlers leave the tree alone while an event climbs
- PathNormalize.NormalizeParts: starts from the list of components; splitting a path and joining it, and the branch that uses the standard library's own normaliser, are left out
- MdbValidator.TypeDecides: does not model the texts of the errors thrown
- IsoTime.IsoRoundTripIff: instants before 1970 are left out; the calendar functions of the C library are modelled by the Gregorian calendar, and the regular expression by an explicit parser
- Debounce.Continue.GetDebounceVal: before any clear, which sets the threshold to zero
- Debounce.BinaryContinue.GetDebounceVal: before any clear
- Debounce.Average.GetDebounceVal: before any clear
- Debounce.Median.GetDebounceVal: for windows of at least three samples, since smaller ones index an empty vector, and before any clear
- plug-ins, services and reflection, logging, compression, signatures, regular expressions and XML, which wrap libraries that are not part of this model
