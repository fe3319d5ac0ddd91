# Verification of the LaunchDarkly C server SDK core

A Dafny model of the SDK's state machines and transformations, with proofs about all their inputs, interleavings and
histories. `dafny verify dfyconfig.toml` checks everything.

| modules | what they model |
|---|---|
| `RedisUpsert`, `RedisOutcomes` | the optimistic transaction loop of the Redis store, as interleaved commands of any number of connections, and what its calls answer and do |
| `StoreSpec`, `Store`, `RefCount` | the in-memory feature store: versioned entries and the derived `all:` index in one hash, and the reference counts of its values |
| `LruSpec`, `Lru` | the list of recently seen user keys: a ring of nodes and a hash over them |
| `Cutting`, `Sse`, `SseRoundTrip` | the incremental parser of server-sent events, and what it makes of events sent as bytes |
| `JsonValue`, `Evaluate`, `WellFormed`, `Rollout`, `Bucketing` | flag evaluation over JSON flags, its meaning on well-formed data, percentage rollouts and the user's bucket |
| `Decimal`, `JsonText`, `JsonRoundTrip`, `JsonUnicode`, `JsonNumber`, `JsonGrammar`, `JsonCode`, `JsonString`, `JsonParser` | the JSON printer and parser, the round trip, and the parser against the grammar of RFC 8259 |
| `Sha1Spec`, `Sha1`, `Sha1Words`, `Sha1Context` | SHA-1 streaming against FIPS 180-4 |
| `Basics` | what the other modules share |
| `SemVer` | precedence of semantic versions against section 11 of SemVer 2.0.0 |
| `EventSpec`, `EventSummary`, `IndexEvents`, `EventProcessor`, `DeliverySpec`, `Pipeline`, `Delivery` | analytics events: queue, summary counters, index events, bundling, the two-try delivery, and all of it together |

Modules in pairs separate what is computed (functions and their laws) from the code that computes it (classes, loops and
arrays whose contracts name those functions).

Five promises turn out not to hold as stated, and have their exact condition instead:

- Newest version wins in Redis, except that a stored tombstone counts as absent: a commit lowers the stored version exactly
  when it replaces a newer tombstone (`RedisUpsert.CommitLowersVersionIff`).
- The in-memory store converges entry by entry, but an `all:` object may be present and empty or missing, depending on order.
  The whole store converges exactly when every kind is settled: its index already exists, or no update of the batch would
  create it, or some live entry survives (`StoreSpec.ConvergesIff`).
- `compare_prerelease` takes an empty identifier for the number 0, a hyphen with digits for a negative number, and wraps numbers
  beyond `int`. A version is ordered as the standard orders it, against all versions without such identifiers, exactly when it
  has none itself (`SemVer.PrecedenceIsStandardIff`).
- A payload is sent until it is delivered or has failed twice, unless its request cannot be set up after it was bundled, or
  its first send fails at a clock time below one millisecond, which sets the failure time to zero and reads as no failure:
  nothing sends it again then (`DeliverySpec.OrphanedIff`).
- Debug copies of events are announced for flags with `debugEventsUntilDate` (CHANGELOG.md:174), but the test of the
  conversion is inverted (src/event_processor.c:509): a converted copy is freed, and one is queued, without its kind, exactly
  when the conversion fails (`EventSpec.DebugCopyIff`, `EventSpec.DebugCopiesAreDropped`).

Conventions: text is a sequence of bytes written as characters; `real` stands for `float` and `double`; allocation succeeds,
save in the set-up of requests and the conversion of debug copies; clocks, random identifiers, the network and the dispatch
callback are parameters.

## Model

| member | source | states |
|---|---|---|
| `RedisUpsert.StepKeepsInv` | stores/redis/src/redis.c:626-741 | every command of every connection keeps the refinement invariant: decisions of unmarked connections still stand, the log is a legal sequential history |
| `RedisUpsert.CommitIsAtomic` | stores/redis/src/redis.c:696-741 | at EXEC an unmarked connection writes exactly the commands of its call, and its earlier decision is still the one the atomic call would take |
| `RedisUpsert.EveryRunIsSequential` | stores/redis/src/redis.c:594-757 | over every interleaving the invariant holds, so ended calls form a legal history of atomic upserts and inits |
| `RedisUpsert.RefinesAtomicCalls` | stores/redis/src/redis.c:594-757 | in every reachable state the database is the replay of a legal sequential log, and each connection's calls appear in it in order (what each call answers and does is RedisOutcomes) |
| `RedisUpsert.RespectsRealTime` | stores/redis/src/redis.c:594-757 | a call that begins once others have ended is logged after all of them, over every continuation: with the above, the store is linearisable |
| `RedisOutcomes.UpsertOutcomes` | stores/redis/src/redis.c:639-668 | in every reachable state each upsert of the log was skipped exactly if a live item of the same or a higher version was stored at its key in the replay before it, failed exactly if the text there was unreadable, and wrote otherwise |
| `RedisOutcomes.UpsertEffects` | stores/redis/src/redis.c:670-741 | one that wrote stored exactly its own version, deletion mark and body under its key and changed nothing else; any other changed nothing |
| `RedisOutcomes.InitOutcomes` | stores/redis/src/redis.c:326-396 | each initialisation of the log that wrote set the marker and replaced exactly the hashes of its collections by their items, the last of a key or kind counting; one that failed changed nothing |
| `RedisOutcomes.WatchesLast` | stores/redis/src/redis.c:626-741 | watches and marks of a connection last until its next EXEC, across calls, and no longer |
| `RedisOutcomes.NeverStuck` | stores/redis/src/redis.c:594-757 | in every reachable state a connection in the middle of a call can issue its next command, whatever the others do |
| `RedisUpsert.LiveItemsOnlyGoForward` | stores/redis/src/redis.c:639-668 | no upsert step ever replaces a live item by one of equal or lower version, whatever watches are left over and whoever initialises |
| `RedisUpsert.CommitLowersVersionIff` | stores/redis/src/redis.c:653-668 | an upsert commit lowers the stored version exactly when a tombstone of higher version was stored |
| `RedisUpsert.TombstoneIsReplacedByOlderItem` | stores/redis/src/redis.c:653-653 | a run that ends with version 1 stored where the tombstone of version 2 was |
| `RedisUpsert.StepKeepsNilBudget` | stores/redis/src/redis.c:722-741 | every step keeps the budget: nil replies plus marks are paid for by other connections' commits |
| `RedisUpsert.NilRepliesAreBounded` | stores/redis/src/redis.c:626-741 | nil EXEC replies never exceed (connections opened - 1) times committed transactions |
| `RedisUpsert.InitFailsIff` | stores/redis/src/redis.c:326-396 | storeInit, which watches nothing, fails and writes nothing exactly when its connection is marked at EXEC, and then a watch is left over from an upsert of that connection that ended early |
| `RedisUpsert.LeftoverWatchFailsInit` | stores/redis/src/redis.c:664-668 | a run in which such a leftover watch makes an initialisation fail |
| `LruSpec.StackDistanceLaw` | src/lru.c:53-106 | an insertion answers EXISTED exactly when the key was inserted since the last clear with fewer than capacity distinct keys after it |
| `LruSpec.OneNewAnswerPerWindow` | src/lru.c:53-136 | in any window, opened by a clear or by construction, whose distinct keys fit the capacity, a key is new exactly at its first insertion in the window |
| `LruSpec.CapacityCutsRecency` | src/lru.c:53-106 | after any history the list is the unbounded recency list cut to the capacity |
| `Lru.Set.Insert` | src/lru.c:53-106 | on the real ring and hash: the answer and the new list are those of move-to-front with eviction, and ring, hash and count stay consistent |
| `Lru.Set.Clear` | src/lru.c:109-136 | leaves an empty, consistent set |
| `Lru.Set.DeleteAll` | third-party/include/utlist.h:958-961 | the deleting traversal of the ring visits every node and empties it |
| `Lru.Set.Touch` | src/lru.c:100-104 | an existing node moves to the front of the ring |
| `Lru.Set.Evict` | src/lru.c:74-80 | the last node leaves ring and hash |
| `Lru.CdlDelete` | third-party/include/utlist.h:926-938 | unlinks one node from a circular list: the others form the same ring without it |
| `Lru.CdlPrepend` | third-party/include/utlist.h:880-892 | links a node in front of the head of a circular list |
| `Lru.RingCloses` | third-party/include/utlist.h:880-938 | bridging the neighbours of place i leaves a ring of the other nodes, head and tail included |
| `Sse.ChunkIndependence` | c-sdk-common/src/sse.c:127-177 | from a fresh parser the dispatched events depend only on the concatenated bytes and equal the line rule folded over the whole stream cut at LF |
| `Sse.ParserHandsOverBlocks` | c-sdk-common/src/sse.c:40-177 | those events are the blocks of section 9.2.6 of the HTML standard, restricted to LF, to named events and to fields written with a colon, up to the first rejected one |
| `Sse.FoldIsBlocks` | c-sdk-common/src/sse.c:40-124 | folding the line rule over lines hands over exactly the event of each block, data lines joined by newline |
| `Cutting.LinesOfConcat` | c-sdk-common/src/sse.c:153-177 | cutting commutes with appending: complete lines stay and the remainder is carried over |
| `Sse.Parser.Process` | c-sdk-common/src/sse.c:127-177 | one chunk, on any parser: appended, every complete line processed up to a rejected event, the unconsumed bytes kept; after a rejection everything is kept, with NUL for the LF of each line taken |
| `Sse.FirstLineIsReadAgain` | c-sdk-common/src/sse.c:153-177 | fed again after a rejection, the parser first reads again the first line of the rejected call, whose bytes it still holds |
| `Sse.Feed` | src/streaming.c:335-357 | feeding chunk after chunk until one is refused hands over the events of the whole stream's blocks |
| `SseRoundTrip.SentIsReceived` | c-sdk-common/src/sse.c:40-177 | events sent as bytes, with or without the space after the colon and with any number of data lines, and fed to a fresh parser in any chunks, are handed over with exactly their names and their data lines joined by LF, up to the first refused |
| `SseRoundTrip.ValueOfLine` | c-sdk-common/src/sse.c:77-111 | one space after the colon is dropped and nothing else |
| `SseRoundTrip.Receive` | src/streaming.c:335-357 | the same for the feeding loop |
| `Sse.Parser.TakeLine` | c-sdk-common/src/sse.c:158-169 | the LF is overwritten and the C string before it processed |
| `Sse.Parser.ProcessLine` | c-sdk-common/src/sse.c:40-124 | one line's effect on name, body and dispatch is that of the line rule |
| `StoreSpec.UpsertKeepsAgreement` | src/store.c:427-586 | after an upsert the index of a kind is still exactly its live entries, and absent only if there are none |
| `StoreSpec.BatchKeepsAgreement` | src/store.c:427-586 | the same for every sequence of upserts and removes |
| `StoreSpec.NewestWins` | src/store.c:456-479 | every key ends with an update of maximum version among those applied and the old entry |
| `StoreSpec.EntriesConverge` | src/store.c:456-479 | batches of the same updates in any order and repetition give the same entries, if equal versions of a key mean equal updates |
| `StoreSpec.StoresConverge` | src/store.c:1367-1472 | when every kind is settled they give the same store, index objects included |
| `StoreSpec.UnsettledDiverges` | src/store.c:494-559 | otherwise two permutations of the batch leave different stores: one with an empty index object, one with none |
| `StoreSpec.ConvergesIff` | src/store.c:1367-1472 | a batch converges under all its permutations if and only if every kind is settled, and so it does under all orders with repetitions |
| `StoreSpec.EmptyIndexOrNone` | src/store.c:494-559 | the smallest diverging batch: a new key and its removal on an empty store |
| `StoreSpec.VersionsNeverDrop` | src/store.c:456-479 | no batch lowers the version stored for a key |
| `Store.CacheKeyInjective` | src/store.c:383-402 | different entries never share a cache key when kinds hold no colon |
| `Store.AllKeyIsNoCacheKey` | src/store.c:405-423 | an index object never shares a cache key with an entry of a served kind |
| `Store.KindAllCollides` | src/store.c:383-423 | a kind named `all` would collide with index objects |
| `Store.ServedKindsAreGood` | src/store.c:120-132 | the kinds the SDK serves are among those with injective cache keys |
| `Store.MemoryStore.UpsertMemory` | src/store.c:427-586 | on the one hash of entries and index objects: the new contents are those of the versioned upsert, and the representation invariant with index agreement holds |
| `Store.MemoryStore.FilterAndCacheItems` | src/store.c:590-648 | caching a set is applying its features in order |
| `Store.MemoryStore.MemoryCacheFlush` | src/store.c:651-666 | leaves an empty store |
| `Store.MemoryStore.Init` | src/store.c:669-710 | the store afterwards is the sets applied to an empty one |
| `Store.MemoryStore.Upsert` | src/store.c:1412-1472 | invalid features are refused without effect, valid ones upserted |
| `Store.MemoryStore.Remove` | src/store.c:1367-1409 | a key that was missing or older is afterwards deleted at exactly the given version, otherwise nothing changes, and no other entry does; the index stays in agreement |
| `Store.MemoryStore.Get` | src/store.c:1237-1304 | the live entry, tombstones reading as missing |
| `Store.RemoveUpsertGet` | src/store.c:1237-1472 | after a removal newer than what was stored, an upsert is what readers get exactly if it is live and of greater version than the removal |
| `Store.MemoryStore.All` | src/store.c:1307-1364 | all live entries of the kind, or nothing when none is live |
| `RefCount.StepKeepsInv` | src/store.c:224-324 | every step of readers and replacing writers keeps counts, holders and ownership consistent |
| `RefCount.CountsAreExact` | src/store.c:224-290 | in every reachable state a count is one for the cache plus the outstanding readers |
| `RefCount.NoUseAfterDestroy` | src/store.c:257-290 | no value is destroyed while a reader holds it, has just found it, or the cache owns it |
| `RefCount.CountIsPositive` | src/store.c:267-282 | the assertion before a decrement never fails |
| `RefCount.DestroyedExactlyOnce` | src/store.c:257-324 | no value is destroyed twice, and at rest exactly the unowned ones are destroyed |
| `RefCount.NeverStuck` | src/store.c:224-324 | in every reachable state a thread in the middle of a call has an enabled step that brings it nearer its end, whatever the others do |
| `RefCount.ReadGetsTheCached` | src/store.c:224-254 | an undisturbed read of a slot gives its reader one more reference to the value cached there and changes nothing else |
| `RefCount.PutIsCached` | src/store.c:427-586 | an undisturbed write gives the writer's reference to the cache under its slot and changes nothing else |
| `Evaluate.EventsArePostOrder` | src/evaluate.c:137-390 | the events of an evaluation are the post-order traversal of the visited prerequisite tree, up to the first failure |
| `Evaluate.CheckedEvents` | src/evaluate.c:393-639 | the same for the prerequisites of one flag |
| `Evaluate.EvaluationFollowsOrder` | src/evaluate.c:137-390 | every non-error result is that of the first reason that applies: off, failed prerequisite, least target, least rule, fallthrough, with the variation at its index, counted from zero |
| `Evaluate.ValueIsTheVariation` | src/evaluate.c:55-113 | on every non-error result a variation index comes with the value at that index, and no index with no value |
| `Evaluate.ServedVariation` | src/evaluate.c:55-113 | whatever the reason, an index k gives variation k of the flag's list and its value, and a missing or null index gives neither; the index is offVariation when off or a prerequisite fails, the least target's variation, or the one picked |
| `Evaluate.PrerequisiteEvent` | src/evaluate.c:480-560 | the event of an evaluated prerequisite comes after its own events and says its key, variation, value, for which flag, and version |
| `Evaluate.RankDoesNotMatter` | src/evaluate.c:393-639 | the rank that bounds the recursion has no influence on the result |
| `WellFormed.PrerequisitesIff` | src/evaluate.c:393-639 | on a well-formed store prerequisites pass exactly when each one exists, is on, itself matches and yields the required variation, and otherwise the reported key is that of the first that does not |
| `WellFormed.EvaluationSucceeds` | src/evaluate.c:137-390 | evaluating a well-formed flag on a well-formed store never ends in an error |
| `WellFormed.ChecksSucceed` | src/evaluate.c:393-639 | nor does checking well-formed prerequisites |
| `WellFormed.EvaluationIsDecided` | src/evaluate.c:137-390 | on a well-formed store every evaluation reports the first reason that applies, with the value it selects |
| `WellFormed.ReasonMeans` | src/evaluate.c:137-390 | on well-formed data and a flag that is on: the reason is a failed prerequisite iff some prerequisite is not satisfied; else a target match iff some target lists the user; else a rule match iff all clauses of some rule hold; else the fallthrough |
| `WellFormed.LaterStagesSucceed` | src/evaluate.c:235-390 | targets, rules and fallthrough of a well-formed flag always yield a match |
| `WellFormed.RuleIff` | src/evaluate.c:642-687 | a well-formed rule matches exactly when all its clauses hold |
| `WellFormed.ClauseIff` | src/evaluate.c:690-785 | a segment clause holds when some named stored segment holds the user, or negated; any other as below |
| `WellFormed.PlainClauseIff` | src/evaluate.c:989-1114 | a clause holds when the operator accepts the attribute, or an element of it, with some value, or negated; unknown operators and missing attributes never hold, negated or not |
| `WellFormed.SegmentIff` | src/evaluate.c:788-889 | a user is in a segment when included, or not excluded and some rule holds |
| `WellFormed.SegmentRuleIff` | src/evaluate.c:892-967 | a segment rule holds when all its clauses hold and the bucket is below the weight, if any |
| `WellFormed.ChoosePicks` | src/evaluate.c:1249-1494 | a well-formed variation or rollout always picks one of the flag's variations |
| `Rollout.RollLoop` | src/evaluate.c:1369-1440 | the accumulating loop picks the same share, or fails the same way, as the recursive rule used by the evaluator |
| `Rollout.RolloutPartition` | src/evaluate.c:1369-1440 | for non-negative weights exactly one share holds the bucket between its cumulative weights, the last one also holding everything past the end, and it is the one taken |
| `Rollout.RolloutByHash` | src/evaluate.c:1249-1441 | with SHA-1 for the bucket function, a rollout of non-negative weights takes the one share that holds the hash bucket of the user |
| `Rollout.RolloutChoice` | src/evaluate.c:1249-1494 | a rollout hashes the attribute it names, or the user's key, with its own seed, or else key and salt of the flag, and the secondary key if any, and picks the share that holds the bucket |
| `Rollout.FixedChoice` | src/evaluate.c:1249-1494 | a fixed variation is picked as it stands, outside any experiment |
| `Rollout.GrowthKeepsUsers` | src/evaluate.c:1369-1440 | raising the cumulative weight of the first k shares moves no user out of them |
| `Rollout.RollFailsIff` | src/evaluate.c:1369-1413 | a rollout fails exactly when a malformed share comes before the bucket is reached |
| `Bucketing.Hexify` | third-party/src/hexify.c:11-36 | writes two digits for each byte that fits before the terminator and nothing else |
| `Bucketing.HexToDecimal` | src/evaluate.c:1117-1141 | the value of the numeral, or zero when a character is no lower-case hexadecimal digit |
| `Bucketing.HexDenotes` | third-party/src/hexify.c:11-36 | the numeral of a byte string denotes its big-endian value |
| `Bucketing.BucketInUnitInterval` | src/evaluate.c:1218-1239 | the bucket of every digest lies between 0 and 1 |
| `Bucketing.HashBucket` | src/evaluate.c:1218-1239 | the bucket is floor(first eight digest bytes / 16) / (16^15 - 1) of the SHA-1 digest that FIPS 180-4 defines |
| `Bucketing.BucketUser` | src/evaluate.c:1144-1246 | succeeds exactly for text or number attributes whose hashed text is below 256 bytes; the bucket is that of the hash, or 0 on failure, and lies between 0 and 1 |
| `Bucketing.HashedText` | src/evaluate.c:1180-1212 | the four texts that may be hashed: with a seed neither key nor salt, with a secondary key that at the end, dots between |
| `Bucketing.WhatIsBucketable` | src/evaluate.c:1165-1183 | text is hashed as it is, a number as printed in its buffer, anything else not at all |
| `Bucketing.BucketIsFraction` | src/evaluate.c:1214-1232 | the bucket is the fraction of 16^15 - 1 that the first fifteen hexadecimal digits denote |
| `Sha1Words.MacrosImplementStandard` | third-party/src/sha1.c:29-49 | the round macros, byte swap and additions compute the 32-bit functions of section 4.1.1 of FIPS 180-4 |
| `Sha1Words.ConstantsAreRoots` | third-party/src/sha1.c:45-49 | the round constants are the square roots of 2, 3, 5 and 10 scaled by 2^30, as section 4.2.1 has them |
| `Sha1Words.RotationsRotate` | third-party/src/sha1.c:29-29 | the shifts of both descriptions are circular, by 1, 5 and 30 places |
| `Sha1Words.InitialWordsCount` | third-party/src/sha1.c:182-193 | the initial words are those of section 5.3.1 |
| `Sha1Words.DigestHoldsWords` | third-party/src/sha1.c:271-274 | the digest holds the five words, each with its most significant byte first |
| `Sha1.Transform` | third-party/src/sha1.c:54-177 | 80 rounds over a schedule expanded in place in 16 words are the block computation of section 6.1.2 |
| `Sha1.Expand` | third-party/src/sha1.c:33-42 | the circular window holds the right schedule word at each round |
| `Sha1.CounterAdvances` | third-party/src/sha1.c:209-212 | the two-word carry keeps the counter at the bit length |
| `Sha1.CounterIsBitLength` | third-party/src/sha1.c:209-212 | the two counter words are the bit length modulo 2^64 |
| `Sha1.CounterBytes` | third-party/src/sha1.c:259-262 | the counter words, byte by byte, are the 64-bit length field of the padding |
| `Sha1Context.Context.Update` | third-party/src/sha1.c:198-226 | appends the data to what was fed: whole blocks hashed in order, the rest buffered, the counter advanced |
| `Sha1Context.Context.PadToLength` | third-party/src/sha1.c:264-270 | the padding loop ends, after exactly the number of zero bytes section 5.1.1 asks for |
| `Sha1Context.Context.Final` | third-party/src/sha1.c:231-280 | the digest is the block computation folded over the padded message, and the context is wiped |
| `Sha1Context.OneShot` | third-party/src/sha1.c:282-295 | feeding a string byte by byte gives its digest |
| `Sha1Context.SplitIndependence` | third-party/src/sha1.c:198-226 | contexts fed the same bytes in any split agree in state, counter and live buffer |
| `JsonRoundTrip.RoundTrip` | c-sdk-common/src/cJSON.c:1183-1659 | parsing the unformatted print of a value gives it back if it nests at most 1000 deep, and fails otherwise |
| `JsonRoundTrip.ValueReads` | c-sdk-common/src/cJSON.c:1183-1659 | a printed value reads back at every depth and whatever follows it, or is refused for nesting |
| `JsonRoundTrip.StringRoundTrip` | c-sdk-common/src/cJSON.c:673-913 | every NUL-free string survives escaping and unescaping, and its closing quote is found |
| `JsonRoundTrip.NumberRoundTrip` | c-sdk-common/src/cJSON.c:289-358 | integers below 10^15 in magnitude read back from their digits |
| `JsonRoundTrip.PrintInjective` | c-sdk-common/src/cJSON.c:1248-1659 | different values print differently |
| `JsonCode.CountEscapes` | c-sdk-common/src/cJSON.c:827-848 | the counting loop gives the exact growth of the string by escaping |
| `JsonCode.PrintString` | c-sdk-common/src/cJSON.c:802-913 | the buffer of the precomputed length is filled exactly with the quoted string and its terminator |
| `JsonCode.WriteEscape` | c-sdk-common/src/cJSON.c:868-908 | one character is written as its escape, within the space left |
| `JsonCode.Printer.PrintValue` | c-sdk-common/src/cJSON.c:1248-1311 | appends the print of the value |
| `JsonCode.Printer.PrintArray` | c-sdk-common/src/cJSON.c:1402-1453 | appends the elements, comma separated, in brackets |
| `JsonCode.Printer.PrintObject` | c-sdk-common/src/cJSON.c:1561-1659 | appends the members, comma separated, in braces |
| `JsonParser.SkipLoop` | c-sdk-common/src/cJSON.c:938-954 | skips white space and steps back onto the terminator at the end |
| `JsonString.QuoteLoop` | c-sdk-common/src/cJSON.c:689-711 | finds the closing quote, or that there is none, and counts the escapes before it |
| `JsonString.DecodeLoop` | c-sdk-common/src/cJSON.c:725-775 | decodes characters, escapes and UTF-16 literals, or fails where the rule does; every byte written and the terminator lie within the allocated buffer |
| `JsonString.TurnFits` | c-sdk-common/src/cJSON.c:713-720 | what one turn writes never exceeds what the raw length less the skipped backslashes leaves, even where a literal reaches over a backslash |
| `JsonString.DecodeString` | c-sdk-common/src/cJSON.c:673-798 | search, allocation and decoding together give the string of the parsing rule |
| `JsonParser.NumberLoop` | c-sdk-common/src/cJSON.c:305-336 | copies the longest run of number characters that fits the buffer |
| `JsonParser.Parser.ReadString` | c-sdk-common/src/cJSON.c:673-798 | the string and the offset after it are those of the parsing rule |
| `JsonParser.Parser.ReadNumber` | c-sdk-common/src/cJSON.c:289-358 | the number and the offset after it are those of the parsing rule |
| `JsonParser.Parser.ReadElements` | c-sdk-common/src/cJSON.c:1348-1380 | the element loop reads exactly the elements of the parsing rule, or fails with it |
| `JsonParser.Parser.ReadMembers` | c-sdk-common/src/cJSON.c:1490-1540 | the member loop reads exactly the members of the parsing rule, or fails with it |
| `JsonParser.Parser.ReadValue` | c-sdk-common/src/cJSON.c:1183-1244 | value, offset and depth after a parse are those of the parsing rule |
| `JsonParser.ParseText` | c-sdk-common/src/cJSON.c:977-1048 | the whole parse of a C string, byte order mark included |
| `JsonParser.SerializeThenParse` | c-sdk-common/src/json.c:648-678 | printing and parsing, the loops and buffers themselves, give the value back if it nests at most 1000 deep, and fail otherwise |
| `JsonGrammar.DocumentsParse` | c-sdk-common/src/cJSON.c:938-1054 | every document that RFC 8259 allows, with any white space and any spelling of strings and numbers, parses to what it denotes by its structure, with or without byte order mark, unless it nests deeper than 1000, and then fails |
| `JsonGrammar.TextIsUtf8` | c-sdk-common/src/cJSON.c:565-798 | the text of a string is the UTF-8 form of its code points, read back by an independent decoder |
| `JsonUnicode.StringsDenote` | c-sdk-common/src/cJSON.c:565-798 | every string of section 7, its characters written raw, by short escape or by one or two literals, is read as the text of its code points up to the first 0 |
| `JsonUnicode.Utf8IsRead` | c-sdk-common/src/cJSON.c:618-668 | every code point below 0x110000 is written in its one UTF-8 form |
| `JsonUnicode.LoneSurrogatesAreRefused` | c-sdk-common/src/cJSON.c:565-617 | a surrogate literal without its partner fails the parse |
| `JsonUnicode.BadDigitsEndTheText` | c-sdk-common/src/cJSON.c:534-562 | a literal whose four characters are not all hexadecimal digits is read as code point 0 and so ends the text |
| `JsonNumber.NumeralIsRead` | c-sdk-common/src/cJSON.c:289-358 | every numeral of section 6 of at most 63 characters is read as the exact number it denotes: digits, fraction, exponent and signs |
| `JsonValue.FindIsFirst` | c-sdk-common/src/cJSON.c:1711-1757 | a lookup finds the value of the first field of that name, if there is one |
| `JsonValue.NullIsMissing` | src/events.c:17-21 | null counts as missing where the code asks for a value that is not null |
| `SemVer.ComparePrerelease` | third-party/src/semver.c:211-258 | the cursor loop computes the order of the two lists of identifiers |
| `SemVer.CompareIdentifier` | third-party/src/semver.c:225-248 | one round compares the identifiers at the cursors as keys: strtol stops within the identifier, strncmp and lengths give the order of words |
| `SemVer.CompareVersions` | third-party/src/semver.c:277-307 | semver_compare is the precedence relation: numbers in turn, then prereleases |
| `SemVer.PrecedenceIsAntisymmetric` | third-party/src/semver.c:299-307 | on all versions the sign is antisymmetric, and zero exactly for equal numbers and equal identifier keys |
| `SemVer.PrecedenceIsTransitive` | third-party/src/semver.c:299-307 | on all versions the relation is transitive |
| `SemVer.KeyIsStandardIff` | third-party/src/semver.c:230-233 | an identifier is read as section 11 of SemVer 2.0.0 reads it exactly when it is not empty, not a hyphen and digits, and fits in int |
| `SemVer.DigitsAreRead` | third-party/src/semver.c:230-233 | digits are read modulo 2^32 as int, and as -1 beyond the range of a long |
| `SemVer.HyphenDigitsAreRead` | third-party/src/semver.c:230-233 | digits behind a hyphen are read as the negative number modulo 2^32, and as 0 beyond the range of a long |
| `SemVer.PrecedenceIsStandardIff` | third-party/src/semver.c:277-307 | a version is ordered against every ordinary version as section 11 orders it if and only if its own identifiers are all of that kind |
| `SemVer.PrecedenceMeans` | third-party/src/semver.c:211-307 | a version is lower exactly by major, minor and patch in turn, and at equal numbers if it has a prerelease and the other has none or higher identifiers |
| `SemVer.IdentifiersAreSplit` | third-party/src/semver.c:211-258 | identifiers hold no dots and make up the prerelease with dots between them |
| `SemVer.SomeOrderDiffers` | third-party/src/semver.c:211-258 | for every prerelease with another identifier there is an ordinary one that the code orders differently from section 11 |
| `SemVer.StandardPrereleaseOrder` | third-party/src/semver.c:211-258 | that order is decided by the first difference, a longer list of fields being higher |
| `SemVer.HyphenDigitsDiffer` | third-party/src/semver.c:230-240 | outside the condition they differ: 0 against -1 |
| `EventSpec.SummaryConservation` | src/event_processor.c:201-427 | over any run, for each flag, variation and version, counts in emitted summaries plus pending counts equal the evaluations summarised |
| `EventSpec.QueueIsBounded` | src/event_processor.c:530-544 | the queue never exceeds its capacity and each payload is at most one longer, with at most one summary, placed last |
| `EventSpec.QueuedEventsAreKept` | src/event_processor.c:530-544 | over any run the payloads handed out, summaries apart, followed by the queue, are everything that was accepted, once and in order |
| `EventSpec.SummarizeCounts` | src/event_processor.c:201-427 | summarising an event adds one to the count of its own flag, variation and version and to no other |
| `EventSpec.KeyTextInjective` | src/event_processor.c:983-1057 | different variations or versions never share a counter key |
| `EventSpec.ReportsKeepCounts` | src/event_processor.c:1272-1375 | the summary reports exactly the pending counts |
| `EventSummary.SummaryMeans` | src/event_processor.c:201-427 | after any run, a payload ends with a summary exactly if something was evaluated since the last; it spans the time of the first of these evaluations and the bundling, and lists exactly their flags and counters, with their number and the value and default of the first |
| `EventSummary.PendingTells` | src/event_processor.c:201-427 | over any run the pending counters say what the evaluations since the last payload do |
| `EventSpec.DebugCopyIff` | src/event_processor.c:493-517 | an evaluation queues a debug copy exactly when one is due and its conversion fails |
| `EventSpec.DebugCopiesAreDropped` | src/event_processor.c:455-527 | over any run in which conversions succeed no debug copy is ever queued or sent |
| `IndexEvents.IndexEventIff` | src/event_processor.c:547-614 | after any run, a user gets an index event unless seen since the last flush with fewer than the capacity of other users after it |
| `IndexEvents.OneIndexEventPerWindow` | src/event_processor.c:547-614 | over any run, while the distinct users since the last flush fit the user list, each user seen since then got exactly one index event |
| `EventProcessor.Processor.AddEvent` | src/event_processor.c:530-544 | appends below the capacity, drops at it |
| `EventProcessor.Processor.MaybeMakeIndexEvent` | src/event_processor.c:547-614 | clears the ring of user keys after the flush interval, inserts the user, and makes an index event exactly for a new one |
| `EventProcessor.Processor.SummarizeEvent` | src/event_processor.c:201-427 | looking up and updating the nested objects in place counts the event once |
| `EventProcessor.Processor.ProcessEvaluation` | src/event_processor.c:63-198 | one evaluation: index event, summary, then the event and its debug copy as the code queues them, then those of the prerequisites; nothing happens when the feature event is refused |
| `EventProcessor.Processor.PossiblyQueueEvent` | src/event_processor.c:455-527 | queues the event if tracked, after a due debug copy whose conversion failed |
| `EventProcessor.Processor.SetServerTime` | src/event_processor.c:1598-1605 | the time of the server that debug copies are compared with |
| `EventProcessor.Processor.PutEvent` | src/event_processor.c:1060-1084 | an identify or alias event is queued if there is room |
| `EventProcessor.Processor.TrackEvent` | src/event_processor.c:1378-1425 | a custom event, then the index event if there is one |
| `EventProcessor.Processor.PrepareSummaryEvent` | src/event_processor.c:1272-1375 | the summary lists every flag with its counters as an array |
| `EventProcessor.ObjectToArray` | src/event_processor.c:1238-1269 | the values of the object in order |
| `EventProcessor.Processor.BundleEventPayload` | src/event_processor.c:1525-1596 | hands out queue and summary and empties both, or nothing when both are empty |
| `DeliverySpec.EveryRunKeepsInv` | src/events.c:55-372 | in every reachable state each payload but one in flight is settled, none is sent more than twice nor given up before, unless orphaned, and the requests made are exactly theirs with one identifier each |
| `DeliverySpec.OneAtATime` | src/events.c:219-293 | a new payload is taken only while none is pending, and a settled one never changes |
| `DeliverySpec.FailureIsRetried` | src/events.c:82-236 | after a first failure nothing happens for a second; the next poll that can set up a request sends the same payload under the same identifier |
| `DeliverySpec.SecondAnswerSettles` | src/events.c:55-101 | a success settles the payload as delivered, a second failure as discarded after two sends, and either frees the buffer |
| `DeliverySpec.BundleIsSent` | src/events.c:239-281 | while nothing is in flight, a poll sends the bundle at once if a flush was asked for, and else once the interval has passed |
| `Pipeline.EveryEventIsSomewhere` | src/events.c:55-372 | over any interleaving of evaluations, custom events, polls and responses, every event accepted into the queue is in the queue, in the payload in flight, delivered, discarded or orphaned, as often as it was accepted |
| `Pipeline.EveryEvaluationIsCounted` | src/event_processor.c:1525-1596 | over any such interleaving every evaluation is pending or in the summary of a payload in flight, delivered, discarded or orphaned |
| `Pipeline.PayloadsAreLinked` | src/events.c:259-281 | the payloads the sender accounts for are exactly those the processor handed out, in order |
| `Pipeline.TraceIsRun` | src/event_processor.c:63-198 | what the processor does in an interleaving is a run of the processor alone |
| `DeliverySpec.OrphanedIff` | src/events.c:82-367 | a step orphans a payload exactly when it is a first failure in the first millisecond of the clock, or takes a new payload whose request cannot be set up |
| `DeliverySpec.OrphansAreUnnoticedFailures` | src/events.c:55-367 | over any run the orphaned payloads are as many as those steps, so there are none without them |
| `DeliverySpec.OrphanExample` | src/events.c:82-99 | a run with a failure in the first millisecond: the payload stays in the buffer and the next poll overwrites it |
| `Delivery.Analytics.PollEvents` | src/events.c:204-372 | one step of the pipeline: waits, retries the same buffer under the same identifier, or takes a new payload from the processor, set-up errors included; requests made are logged |
| `Delivery.Analytics.RequestDone` | src/events.c:55-101 | success delivers, a second failure discards, a first one starts the wait |
| `Delivery.Analytics.ResetMemory` | src/events.c:41-52 | drops buffer and failure time |

## Left out

- Connection pool of the Redis store, its waiting and its error replies.
- Backend mode of the feature store: expiring entries, filling the cache from a persistent store.
- Store.MemoryStore.Init: a kind named `all` or holding a colon is excluded, as its cache keys would collide; so in the other methods of the store. The SDK serves only `features` and `segments`.
- `LDi_validateFeature` and JSON bodies of features in the store: a feature is a key, a version, a deleted mark and a body.
- Sse: use of a parser after LDSSEParserDestroy.
- Evaluate: user attributes, operators, the store and the bucket function are parameters (Rollout.RolloutByHash sets the last to the hash); a failed assertion or a null dereference ends evaluation with `Abort`; prerequisites must be ranked, as the code has no check for cycles; conversions of numbers C leaves undefined count as a failed lookup.
- Rounding of `float` in rollouts and buckets; weights and sums are exact. printf's `%f` is a parameter of Bucketing.BucketUser.
- Sha1Context.Context.Update: data of 2^32 - 64 bytes or more, where the 32-bit index of the loop wraps, is excluded.
- JsonCode.Printer.PrintValue: formatted printing, locale, and numbers with fractions or of magnitude 10^15 and more are left out; the growth of the buffer is part of appending.
- JsonCode.Printer.PrintArray: the same numbers are left out.
- JsonCode.Printer.PrintObject: the same numbers are left out.
- JsonParser.Parser.ReadValue: the error position after a failed parse is not described; numbers parse to exact reals.
- Parsing of versions (`semver_parse`); prereleases are any strings without white space and plus signs, which the parser guarantees. Range operators of semver.c are thin wrappers.
- EventProcessor.Processor.ProcessEvaluation: which flags LDi_newFeatureRequestEvent refuses, and the fields of feature events other than key, variation, version, value, default and those that decide queueing, are not modelled.
- EventSpec.KeyTextInjective: versions are integers below 10^15 in magnitude.
- Delivery.Analytics.PollEvents: the list of headers is not modelled.
- Delivery.Analytics.RequestDone: clock values beyond the range of `unsigned int`, for which C leaves the conversion undefined, are excluded.
- Streaming reconnection, polling, configuration, client life cycle, base64, timestamps and logging.
