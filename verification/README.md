# OpenEvent in Dafny

OpenEvent is a single-node server that keeps one globally ordered log of messages. Clients publish
into channels, channels have members and visibilities, messages may carry keys of stored objects,
and readers page through the log or subscribe to it. This project models that behaviour and proves
what holds over every history of it.

The durable state is a record of typed maps (`Store.Db`): messages, used UUIDs, channels,
credentials, PREPARING and COMMITTED objects, and four counters. Everything is stated over it.

| file | subject |
|---|---|
| `types.dfy`, `records.dfy` | outcomes, lists without repetition, the stored records |
| `decimal.dfy`, `json.dfy`, `channel_events.dfy` | decimal numbers, a reader and a writer of RFC 8259 JSON, the channel event payloads |
| `encoding.dfy`, `raw_store.dfy` | big-endian ordered keys, and the byte-keyed store as a refinement of the typed maps |
| `tokens.dfy` | Base64URL tokens (section 5 of RFC 4648) |
| `store.dfy`, `log.dfy` | batches, read validators, and what each request decides |
| `requests.dfy`, `validity.dfy` | what each request promises its caller, and what the read path accepts, in terms of the stored fields alone |
| `core.dfy` | the request handlers as methods of a class, with commits that fail before or after they are applied |
| `log_invariants.dfy`, `log_runs.dfy` | the invariants of log, UUID index, channel table and objects, and what holds over whole runs |
| `object_files.dfy`, `object_io.dfy` | a directory with volatile and durable views, and the file code as methods of a class |
| `object_protocol.dfy`, `object_safety.dfy`, `object_runs.dfy`, `object_progress.dfy` | the two-phase object write: concurrent writers, unknown commit outcomes, crashes, power loss, recovery |
| `doubles.dfy` | rounding to doubles, as the stored-message validators read numbers |
| `scan.dfy`, `paging.dfy`, `fetch.dfy` | the log scan over arbitrary contents, the page visitors, and following the cursor |
| `snapshots.dfy`, `subscription.dfy` | the generation/version protocol of the shared snapshot, and the subscription stream |
| `byte_runs.dfy` | runs of byte batches, and the snapshots read from them |

How the pieces meet: `ObjectRuns.HistoryProjects` maps every history of the object protocol to a run
of the log, `Core.EffectIsStep` does so for each handler and `Snapshots.HistoryIsRun` for every
history of commits and refreshes. `ByteRuns.RunHasBytes` gives each run its bytes,
`RawStore.ScanSeesTheLog` hands the bytes of a state to the scan, and `ByteRuns.PublishedIsReadable`
with `Subscription.HistoryFeeds` hands the published snapshots to the stream.

Where code and documentation could be read differently, the code is followed. What one might expect
and the code does not keep is stated as a result, with the exact condition:

- A scan of a contiguous valid range can report DATA_LOSS: when a malformed key stands right behind
  the range (`Scan.AlarmBehindRange`), and when the range ends at 2^64 - 1 with budget to spare
  (`Scan.AlarmAtTheEnd`). `Scan.Scannable` is exactly when it does not.
- A page asked for more than one past the end of a snapshot moves the cursor back, so a stream
  relies on its start check; so does a page that passes number 2^64 - 1, and no other
  (`Fetching.FetchVisible`).
- A snapshot handed out once the server is stopping or has failed may miss a commit
  (`Snapshots.StaleWhileStopping`, `Snapshots.StaleAfterFatal`); it contains all that its published
  generation covers (`Snapshots.GenerationReached`).
- A page can exceed the soft byte limit (`Paging.OversizedPage`). It is within it if and only if it
  is empty or its first message is, and always if it has two or more messages of positive size
  (`Paging.WithinSoftLimit`, part of every page).

## Model

| member | source | states |
|---|---|---|
| Encoding.RoundTrip | src/storage/encoding.h:8-27 | encoding and decoding of 64-bit numbers undo each other in both directions |
| Encoding.EncodeUint64 | src/storage/encoding.h:8-15 | the loop that fills the eight bytes computes the big-endian encoding |
| Encoding.DecodeUint64 | src/storage/encoding.h:17-27 | the shifting loop computes the value of eight bytes, and 0 for any other length |
| Encoding.LessIsNumeric | src/storage/encoding.h:8-15 | on keys of one length the byte order is the numeric order |
| Encoding.NumericKeyInverse | src/storage/unified_storage.cpp:159-185 | decoding a numeric key gives back the number, for every prefix |
| Encoding.KeyValueInverse | src/storage/unified_storage.cpp:177-185 | a key that decodes is the key of its number |
| Encoding.NumericKeyOrder | src/storage/unified_storage.cpp:159-162 | within a family the iterator's order is the numeric order of the identifiers, both directions |
| Encoding.TokenKeyInjective | src/storage/unified_storage.cpp:164-167 | a credential key determines both principal and token |
| RawStore.KeysDisjoint | src/storage/unified_storage.cpp:31-41 | no two records of the typed state share a key of one column family |
| RawStore.KeysOnDisk | src/storage/unified_storage.cpp:31-41 | the keys of all records as they stand in the store |
| RawStore.WriteChangesOnePlace | src/storage/unified_storage.cpp:918-1009 | each typed write changes the value of one record and of no other |
| RawStore.WriteRefines | src/storage/unified_storage.cpp:918-1009 | each put or delete keeps the bytes an exact representation of the typed maps, with no stray key |
| RawStore.BatchRefines | src/storage/unified_storage.cpp:628-642 | applying the bytes of a whole batch represents applying its meaning |
| RawStore.InitialRefines | src/storage/unified_storage.cpp:535-542 | the first batch of a new store represents the initial state |
| RawStore.ReadersAgree | src/storage/unified_storage.cpp:644-738 | counters, credentials, UUID mappings and channels read from the bytes are those of the typed state, error cases included |
| RawStore.ObjectReadersAgree | src/storage/unified_storage.cpp:839-870 | object metadata read from the bytes is that of the typed state, error cases included |
| RawStore.DamageIsReported | src/storage/unified_storage.cpp:644-858 | on arbitrary contents a cell that is not what its key promises is reported as DATA_LOSS by the reader of that key |
| RawStore.ListFamily | src/storage/unified_storage.cpp:740-762 | a prefix iteration over arbitrary contents lists every entry under the prefix once, in ascending order of identifiers, or reports an entry that is damaged |
| RawStore.ListChannels | src/storage/unified_storage.cpp:740-762 | the same for channels |
| RawStore.ListPreparingObjects | src/storage/unified_storage.cpp:1028-1049 | the same for PREPARING objects |
| RawStore.ChannelListing | src/storage/unified_storage.cpp:740-762 | on a represented state the listing is exactly the channel table |
| RawStore.ChannelsUndamaged | src/storage/unified_storage.cpp:740-762 | a sound channel table never makes the listing fail |
| RawStore.PreparingListing | src/storage/unified_storage.cpp:1028-1049 | on a represented state the listing is exactly the PREPARING table |
| RawStore.ScanSeesTheLog | src/storage/unified_storage.cpp:764-837 | the message family of a represented state holds every message of the log under its number and nothing else, as the scan needs it |
| Json.StringRoundTrip | src/service/open_event_core.cpp:118-136 | a section 7 of RFC 8259 string reader undoes the quoting and stops exactly behind the closing quote, whatever follows |
| Json.RoundTrip | src/service/open_event_core.cpp:138-161 | reading a printed JSON tree gives back the tree |
| ChannelEvents.JsonString | src/service/open_event_core.cpp:118-136 | the escaping loop computes the quoted form of every text |
| ChannelEvents.ChannelInitializedPayload | src/service/open_event_core.cpp:138-155 | the payload assembled piece by piece is the printed initialization event |
| ChannelEvents.MemberChangedPayload | src/service/open_event_core.cpp:157-161 | the payload is the printed membership event |
| ChannelEvents.InitializedRoundTrip | src/service/open_event_core.cpp:138-155 | reading the payload recovers name, protocol, description, visibility, the exact 64-bit creator and the member list |
| ChannelEvents.MemberRoundTrip | src/service/open_event_core.cpp:157-161 | reading a membership payload recovers its kind and the exact member |
| ChannelEvents.InitializedAccepted | src/storage/unified_storage.cpp:80-148 | every payload printed for a sound channel passes the validator of stored system messages |
| ChannelEvents.MemberAccepted | src/storage/unified_storage.cpp:80-148 | every membership payload passes that validator |
| Doubles.RoundedPrincipal | src/storage/unified_storage.cpp:109-113 | the nearest double of an integer from 1 to 2^64 is again one, and is the integer itself below 2^53 |
| Doubles.AcceptedAsDouble | src/storage/unified_storage.cpp:101-116 | a number the model validators accept as written is accepted by the comparisons on its nearest double, however ties are rounded |
| ChannelEvents.InitializationTextIs | src/storage/unified_storage.cpp:43-51 | the literal payload of message 0 is the printed form of its JSON tree |
| ChannelEvents.InitializationAccepted | src/storage/unified_storage.cpp:43-78 | message 0, as written at creation, passes its validator |
| Tokens.DecodeEncode | src/service/open_event_core.cpp:76-101 | Base64URL decoding undoes the encoding for every length, including one or two bytes left over |
| Tokens.EncodeSymbols | src/service/open_event_core.cpp:76-101 | the encoding has the right length and uses only the URL-safe alphabet |
| Tokens.GenerateObjectToken | src/service/open_event_core.cpp:58-102 | a token generated from 32 random bytes has 43 symbols, passes the stored-token validator and determines its bytes |
| LogInvariants.InitialInv | src/storage/unified_storage.cpp:505-564 | the initial batch satisfies every invariant |
| LogInvariants.PublishInv | src/service/open_event_core.cpp:453-531 | publishing keeps the log gap-free, the UUID index inverse, the channel records replays of the log, every entry justified and every object key open |
| LogInvariants.CreateInv | src/service/open_event_core.cpp:1131-1199 | so does creating a channel, whose first entry is its initialization event |
| LogInvariants.AddInv | src/service/open_event_core.cpp:1274-1324 | so does adding a member |
| LogInvariants.RemoveInv | src/service/open_event_core.cpp:1326-1377 | so does removing a member |
| LogInvariants.PrepareInv | src/service/open_event_core.cpp:839-875 | so does the commit of PREPARING metadata with the identifier bump |
| LogInvariants.CommitInv | src/storage/unified_storage.cpp:995-1004 | so does the commit that turns PREPARING into COMMITTED |
| LogInvariants.NextInv | src/service/open_event_core.cpp:533-543 | every step of the server, applied or not, keeps all invariants |
| LogRuns.RunInv | src/service/open_event_core.cpp:533-543 | every state of every run from the initial state satisfies all invariants |
| LogRuns.RunExtends | src/service/open_event_core.cpp:545-584 | over any stretch of any run the log is append-only, no UUID mapping or committed object is lost or altered, no channel is lost and none changes but for its member list, and no counter runs back |
| LogRuns.UuidCommitsOnce | src/service/open_event_core.cpp:431-451 | a UUID occurs at one place of the log, and at the same place in all later logs |
| LogRuns.TakenRangesDisjoint | src/service/open_event_core.cpp:366-406 | UUIDs taken by one step, for a client or for a system event, are never taken by another |
| LogRuns.TakenExactly | src/service/open_event_core.cpp:545-584 | a committed allocation takes exactly its range, a channel change exactly the UUID of the event it appends |
| LogRuns.ChannelsAreReplays | src/service/open_event_core.cpp:545-584 | in every reachable state channel identifiers are exactly 1..next-1 and each stored record equals the replay of its system events; every field is in range, members are distinct, nonzero, at most 1024 and include the creator |
| LogRuns.FirstEntryInitializes | src/service/open_event_core.cpp:1158-1193 | the first log entry of a channel is its initialization event |
| LogRuns.ChannelHasEntry | src/service/open_event_core.cpp:1158-1193 | every channel in the table has an entry in the log |
| LogRuns.BusinessMessageAllowed | src/service/open_event_core.cpp:464-481 | for every business message, replaying only the entries before it gives a channel that exists, admits its author and has every recipient as a member |
| LogRuns.CommitsAreAuthenticated | src/service/open_event_core.cpp:323-341 | no request of a run commits unless its token was stored for its principal at that moment, also for the second commit of an object write; a published message bears that principal |
| LogRuns.LoggedKeysStayOpen | src/service/open_event_core.cpp:482-506 | an object key in the log names a committed object with that token, then and in all later states |
| LogRuns.NothingIsCorrupt | src/storage/unified_storage.cpp:1093-1154 | in every reachable state the startup checks and all read validators pass |
| LogRuns.RequestsNeverSeeCorruption | src/service/open_event_core.cpp:586-651 | in every reachable state a request is refused with DATA_LOSS if and only if it is the final commit of an object write under a valid credential whose record is not there as prepared (which no history of the object protocol reaches) |
| Requests.PublishDecided | src/service/open_event_core.cpp:586-722 | a publish request is granted if and only if its credential is stored, its UUID allocated and unused, its payload and keys within limits, its number the next where given, its channel writable by the author, its recipients members and every key matches its committed object; a granted one appends exactly the message asked for and changes nothing else; a refused one is answered with the first thing that is wrong |
| Requests.CreateDecided | src/service/open_event_core.cpp:1131-1199 | a channel is created if and only if its fields, members and credential are in order; the record has the name, protocol, description and visibility asked for, the caller as creator and first member, and the members in order of first mention; the event announces it and nothing else changes |
| Requests.AddDecided | src/service/open_event_core.cpp:1274-1324 | the answer in terms of the stored channel: only its creator may add, an absent channel, a present member and a full channel have their answers; a granted request appends the target, announces it and changes nothing else |
| Requests.RemoveDecided | src/service/open_event_core.cpp:1326-1377 | the same for a removal, which never takes the creator, changes nothing for an absent target, and takes a present one out with the rest in order |
| Requests.PrepareDecided | src/service/open_event_core.cpp:812-875 | an object write is admitted if and only if its fields are within the limits and its credential is stored; it leaves the record under the next identifier and moves the counter |
| Requests.AdmittedIsReadable | src/storage/unified_storage.cpp:368-388 | the write path admits exactly the objects the read path accepts |
| Requests.CommitDecided | src/service/open_event_core.cpp:881-917 | the final commit is granted if and only if the credential still holds and the record is there as prepared; it moves exactly this record |
| Requests.EveryRequestDecided | src/service/open_event_core.cpp:366-1422 | in a sound state every request, allocations and credentials included, is answered as its answer says, and a granted one has exactly its effect |
| Requests.StepsAreExplained | src/service/open_event_core.cpp:533-543 | every step of every run leaves the state alone, or was granted and has exactly the effect of its request |
| Requests.OnlyTheCreatorChangesMembers | src/service/open_event_core.cpp:1304-1376 | over every run only the authenticated creator changes an existing channel, by appending one member or taking one out with the rest in order |
| Validity.BusinessMessageValidIff | src/storage/unified_storage.cpp:793-813 | a client's message passes the scan if and only if its number, UUID and channel are nonzero, its recipients too, and it has at most 1024 keys with nonzero identifiers and 43-symbol tokens |
| Validity.SystemMessageValid | src/storage/unified_storage.cpp:80-140 | a system message that passes the scan is one of the three channel events, with a UUID and a channel and nothing attached |
| Validity.MessageZeroValid | src/storage/unified_storage.cpp:53-78 | under number 0 only an initialization message passes the scan |
| Validity.ChannelValidIffCreatable | src/storage/unified_storage.cpp:390-400 | the read path accepts a channel record with distinct members, at most 1024, its creator first, if and only if some request can have created it |
| Validity.StartupRefuses | src/storage/unified_storage.cpp:1093-1154 | the server refuses to start on a store with a zero counter, without a valid message 0 or without the mapping of its UUID |
| Validity.StartupAccepts | src/storage/unified_storage.cpp:1093-1154 | the server starts on every other store |
| Validity.LoggedMessagesInRange | src/storage/unified_storage.cpp:793-813 | every message of every reachable log has its number, channel, UUID, recipients and object keys in range, and system messages have nothing attached |
| Core.EffectIsStep | src/service/open_event_core.cpp:533-543 | whatever fails, a handler leaves its whole batch or nothing, keeps all invariants, and raises the generation only with reported success |
| Core.EffectsHonour | src/service/open_event_core.cpp:533-543 | whatever fails, a handler answers and leaves what the request promises its caller |
| Core.OpenEventCore.CommitBatch | src/service/open_event_core.cpp:533-543 | a commit that fails before or after the write is fatal, does not raise the generation, and has or has not been applied accordingly |
| Core.OpenEventCore.AllocateUuids | src/service/open_event_core.cpp:366-406 | a count from 1 to 1024 is granted unless the commit fails, and the answer lists exactly the numbers the counter moved over; refusals change nothing |
| Core.OpenEventCore.BuildPublishBatch | src/service/open_event_core.cpp:453-531 | the batch is built if and only if the channel exists and is writable, every recipient is a member and every key matches its committed object, and applying it appends exactly the message asked for |
| Core.OpenEventCore.Publish | src/service/open_event_core.cpp:586-722 | both publish calls are granted exactly when admitted and the commit does not fail, leave exactly the message asked for and nothing else, and answer otherwise with the first thing that is wrong; a given-up call changes nothing; the answer is the next sequence number |
| Core.OpenEventCore.CreateChannel | src/service/open_event_core.cpp:1131-1199 | the call is granted exactly when admitted and the commit does not fail, stores and answers the record asked for, and answers otherwise with the first thing that is wrong |
| Core.OpenEventCore.AddMember | src/service/open_event_core.cpp:1274-1324 | the answer in terms of the stored channel, and exactly the asked-for change unless the commit fails |
| Core.OpenEventCore.RemoveMember | src/service/open_event_core.cpp:1326-1377 | the answer in terms of the stored channel, and exactly the asked-for change unless the commit fails; removing a stranger changes nothing |
| Core.DistinctMembers | src/service/open_event_core.cpp:1165-1172 | the loop with its set of seen members keeps each member at its first position, the creator first |
| Core.EraseMember | src/service/open_event_core.cpp:1363-1368 | finding and erasing removes the first occurrence, and reports absence exactly |
| Core.GetCommittedObjects | src/storage/unified_storage.cpp:872-916 | one answer per identifier in order, or damage exactly if some stored record is invalid |
| Core.LookUpObjectKeys | src/service/open_event_core.cpp:482-506 | the deduplicated lookup through the index map answers as the specification over all keys does |
| Core.KeysAcceptedIff | src/service/open_event_core.cpp:482-506 | a key list is accepted if and only if each key, duplicates included, is accepted on its own |
| ObjectFiles.OnDiskInjective | src/storage/object_file_store.cpp:21-29 | temporary and final names of all objects are different directory entries |
| ObjectRuns.StepSafe | src/service/open_event_core.cpp:795-928 | every step of every writer, crash, power loss and recovery step keeps the protocol's invariant, also when a failed commit was applied |
| ObjectRuns.HistorySound | src/service/open_event_core.cpp:812-928 | the invariant holds in every state of every history |
| ObjectRuns.HistoryProjects | src/service/open_event_core.cpp:812-928 | every history of the object protocol, with all other requests interleaved, is a run of the log |
| ObjectRuns.CommittedFileSurvives | src/storage/object_file_store.cpp:84-187 | in every reachable state a committed object has its final file with exactly the requested bytes, and still has it after a power loss at that point |
| ObjectRuns.CommittedForever | src/service/open_event_core.cpp:881-928 | once committed, record and bytes stay in every later state |
| ObjectRuns.CommittedReads | src/storage/object_file_store.cpp:215-287 | in every later state a read within a committed object is not refused and yields the slice of the requested bytes |
| ObjectRuns.FilesBelongToObjects | src/service/open_event_core.cpp:795-810 | every file, visible now or after a power loss, belongs to an identifier that is PREPARING or COMMITTED |
| ObjectRuns.CorruptionUnreachable | src/storage/object_file_store.cpp:94-97 | no history takes a corruption branch: an existing temporary or final file, changed metadata, an identifier in both phases |
| ObjectRuns.IdsNeverReused | src/service/open_event_core.cpp:851-866 | identifiers handed out at different moments differ, also across crashes |
| ObjectRuns.NextNamesFree | src/service/open_event_core.cpp:851-866 | the identifier handed out next has no record and no file |
| ObjectRuns.SuccessIsCommitted | src/service/open_event_core.cpp:904-917 | a writer that answers success has committed its own record and bytes |
| ObjectProgress.WriteCanComplete | src/service/open_event_core.cpp:812-928 | from every reachable state, whatever other writers have under way, an admitted write can be carried through to success, its record committed and its bytes stored |
| ObjectRuns.RecoveryKeeps | src/storage/unified_storage.cpp:1051-1091 | recovery steps, failures and crashes inside recovery change nothing but PREPARING records and their files |
| ObjectRuns.RecoveryCompletes | src/storage/unified_storage.cpp:1086-1091 | a completed recovery leaves no PREPARING record and no file that is not a committed object's |
| ObjectRuns.RecoveryRun | src/storage/unified_storage.cpp:1051-1091 | recovery interrupted any number of times: once the server serves again exactly the leftovers are gone |
| ObjectRuns.RecoveryIdempotent | src/storage/unified_storage.cpp:1051-1060 | recovering again finds nothing and changes nothing |
| ObjectRuns.LoggedObjectsReadable | src/service/open_event_core.cpp:482-506 | every object key that reached the log names an object whose bytes are durably there |
| ObjectIo.ObjectStorage.WriteLoop | src/storage/object_file_store.cpp:112-130 | it succeeds if and only if the calls move all of the data before an error, whatever the short writes and interrupts; then the file holds exactly the data, before that a prefix of it |
| ObjectIo.ObjectStorage.WriteFile | src/storage/object_file_store.cpp:84-187 | it succeeds if and only if both names are free and no call fails, and then the bytes are durably under the final name; otherwise the answer is that of the first thing that goes wrong; existing names are never replaced and other objects untouched |
| ObjectIo.StoredSurvives | src/storage/object_file_store.cpp:144-187 | a stored object outlives a power loss |
| ObjectIo.ObjectStorage.Cleanup | src/storage/object_file_store.cpp:189-213 | it succeeds if and only if every unlink and the sync do, and then both names of every listed object are durably gone; otherwise the answer is the first failure; no other name and no content changes |
| ObjectIo.ObjectStorage.ReadRange | src/storage/object_file_store.cpp:215-287 | it succeeds if and only if the read is not refused and the calls move enough before an error, whatever the short reads and interrupts; then the answer is exactly the requested slice clipped at the end; each refusal has its status and positions stay within the object |
| ObjectIo.ReadsRebuildObject | src/storage/object_file_store.cpp:257-286 | successive positive-length reads concatenate to the object, and a read is empty exactly at its end |
| ObjectIo.ObjectStorage.CleanupPreparingObject | src/service/open_event_core.cpp:795-810 | the record is dropped only once its files are durably gone, and both go, with the given answer, if every call succeeds |
| ObjectIo.ObjectStorage.FinishObject | src/service/open_event_core.cpp:881-928 | an accepted final commit answers as the commit does and cleans nothing up; a refused one cleans up files and record and answers the refusal; a changed record is answered with DATA_LOSS |
| ObjectIo.ObjectStorage.WriteObject | src/service/open_event_core.cpp:812-928 | it succeeds if and only if it is admitted, written and admitted again and no commit fails, and then the record is committed with its bytes stored; otherwise the answer and what is left follow the first thing that goes wrong; a record it committed always has its bytes, no file is left without a record, and existing files are never replaced |
| ObjectIo.ObjectStorage.RecoverPreparingObjects | src/storage/unified_storage.cpp:1051-1091 | it succeeds if and only if no leftover is damaged or also committed and every call succeeds, and then no PREPARING record or file is left; committed records, counters, other names and contents never change; conflicts change nothing |
| Scan.Seek | src/storage/unified_storage.cpp:776-779 | the iterator stands on the first key not below the target |
| Scan.ScanMessages | src/storage/unified_storage.cpp:764-837 | for arbitrary contents: the visitor sees valid stored messages only, without a gap, each once and in order; the answer is the number after the last one passed; on scannable contents only the visitor can make it fail, and a visitor that never stops succeeds if and only if the contents are scannable, else DATA_LOSS |
| Scan.ScannableWhole | src/storage/unified_storage.cpp:764-837 | with budget for the whole range, scannable means exactly: contiguous and valid, no malformed key before a number above the range, and an end below 2^64 - 1 or a budget of exactly the range |
| Scan.IntactScannable | src/storage/unified_storage.cpp:764-837 | a contiguous valid range that ends below 2^64 - 1 and whose malformed keys lie behind a number above it is scannable with every record budget |
| Scan.AlarmBehindRange | src/storage/unified_storage.cpp:776-784 | a contiguous valid range is reported as DATA_LOSS when a malformed key stands right behind it, because the key is decoded before its number is compared with the end |
| Scan.AlarmAtTheEnd | src/storage/unified_storage.cpp:830-836 | a contiguous valid range without malformed keys that ends at 2^64 - 1 is reported as DATA_LOSS when budget is left, because the next number wraps to 0 |
| Paging.VisitVisibleAnswers | src/service/open_event_core.cpp:1090-1123 | the visitor with its channel cache answers every message as a lookup without a cache would, and the cache keeps agreeing with the access rule |
| Paging.VisitAnyAnswers | src/service/open_event_core.cpp:1465-1489 | the same for the administrator's listing |
| Paging.PageEnds | src/service/open_event_core.cpp:1112-1122 | a page is the selection of what it passed, moves if anything was seen, keeps its rows, is within the soft limit if and only if it is empty or its first message is (and whenever it has two or more messages of positive size), and ends early only for a full page or a message that does not fit |
| Paging.OversizedPage | src/service/open_event_core.cpp:1112-1122 | the page at a visible message larger than the soft limit is that message, over the limit |
| Paging.MessageChannelLoads | src/service/open_event_core.cpp:1095-1104 | in every state satisfying the invariants each logged message's channel loads |
| Paging.ScanMakesPage | src/service/open_event_core.cpp:1085-1128 | a finished scan of a reachable snapshot makes a correct page |
| Fetching.ValidateReadableChannels | src/service/open_event_core.cpp:1616-1638 | the answer is that of the first requested channel that cannot be read, though each is looked up once |
| Fetching.CacheStays | src/service/open_event_core.cpp:1078-1106 | the cache, explicit channels included, agrees with the access rule throughout a page |
| Fetching.FetchVisible | src/service/open_event_core.cpp:1059-1129 | on every reachable snapshot a page succeeds and is exactly the visible part of the stretch it moved over, for any limit, scan budget and byte budget; on damaged contents it is the selection of a gap-free stretch of valid messages under the same limits, or DATA_LOSS for a range that is not scannable or a channel that does not load; the cursor moves back if and only if the page was asked for more than one past the end, which the start check of a stream excludes, or passes number 2^64 - 1 |
| Fetching.ListAllMessages | src/service/open_event_core.cpp:1441-1495 | the same without a filter |
| Fetching.Fetch | src/service/open_event_core.cpp:1027-1057 | a request is refused exactly for its row limit, its credential or the first channel that is missing or barred, each with its status; otherwise the page holds, in ascending order, exactly the entries it passed that are of a requested channel, for the caller if only such are wanted, and of a channel that is open or has the caller as a member; on damaged contents a page of the same kind or DATA_LOSS |
| Fetching.VisibleIffShown | src/service/open_event_core.cpp:1090-1110 | in a sound state the filter of the visitor lets through exactly what the request is for |
| Fetching.ChainDelivers | src/service/open_event_core.cpp:1059-1129 | pages with any limits, each asked for at the cursor of the one before, concatenate to the visible log between start and cursor |
| Fetching.WalkDeliversTheLog | src/service/open_event_core.cpp:1059-1129 | following the cursor to the end yields exactly the visible log suffix, in at most one page per entry |
| Subscription.FetchSubscriptionBatch | src/service/open_event_core.cpp:1528-1555 | each page re-checks credential and channels in its own snapshot; on a reachable one it holds exactly the entries it passed that the request is for, on damaged contents a gap-free selection or DATA_LOSS |
| Subscription.AdmitsIff | src/service/open_event_core.cpp:1497-1526 | in a sound state a stream is admitted if and only if its credential is stored and it may read every requested channel, and refused otherwise with the status of the first that is wrong |
| Subscription.RunSubscription | src/service/grpc_services.cpp:95-149 | for any contents: a refused or out-of-range start sends nothing; otherwise page k comes from round k, starts at the cursor of the page before, and the client receives all of every page it takes and of the page it does not take as a whole just what it took, until a refusal, DATA_LOSS, a cancel or that page; on reachable growing snapshots no page starts past the end of its snapshot and the numbers strictly increase |
| Subscription.StreamAscends | src/service/grpc_services.cpp:116-146 | a stream delivers strictly increasing sequence numbers between its start and its cursor |
| Subscription.CursorOnlyAdvances | src/service/grpc_services.cpp:139-140 | the cursor never moves back |
| Subscription.ScannedOnce | src/service/grpc_services.cpp:116-146 | every number between start and cursor was scanned in exactly one page |
| Subscription.DeliveredIffVisible | src/service/grpc_services.cpp:116-146 | and its message was delivered if and only if, in the snapshot of that page, it was of a requested channel, for the subscriber if only such are wanted, and of a channel the subscriber may read, though rules and log change between pages |
| Subscription.ReceivedIffVisible | src/service/grpc_services.cpp:116-146 | the client receives the message of an entry scanned in a page it took, once, if and only if the request was for it in the snapshot of that page |
| Subscription.WillingClientGetsAll | src/service/grpc_services.cpp:131-137 | a client that takes a hundred messages a round is never cut off and receives every page |
| Subscription.SentIsPrefix | src/service/grpc_services.cpp:131-137 | a client that goes away has received the beginning of that, still strictly increasing |
| Subscription.HistoryFeeds | src/service/open_event_core.cpp:242-321 | in any history of commits and refreshes, on a new or an existing store, the snapshots acquired at the start and round by round are all a stream relies on: reachable, and each an extension of those before |
| Subscription.FreshMessageIsScanned | src/service/open_event_core.cpp:242-269 | a message whose commit was bumped before a round acquired its snapshot, with neither stop nor fatal set, is in that snapshot, and once the stream has caught up in that round exactly one page has scanned it |
| Subscription.Registry.RegisterSubscription | src/service/grpc_services.cpp:57-65 | a stream is admitted exactly if the server is not stopping |
| Subscription.Registry.UnregisterSubscription | src/service/grpc_services.cpp:67-71 | exactly this stream is forgotten |
| Subscription.Registry.StopSubscriptions | src/service/grpc_services.cpp:73-80 | exactly the registered streams are cancelled, and from then on every registered stream is |
| Snapshots.TraceCoherent | src/service/open_event_core.cpp:165-321 | in every history of commits, refreshes and readers of a process that opens any store earlier processes can have left, the published snapshot covers every commit up to its generation |
| Snapshots.PublishedOnlyGrow | src/service/open_event_core.cpp:294-306 | published snapshots only grow, and a different one has a higher version |
| Snapshots.GenerationReached | src/service/open_event_core.cpp:249-269 | whatever the flags, once the published generation has reached that of an earlier moment the published snapshot contains every commit bumped by then |
| Snapshots.AcquiredIsFresh | src/service/open_event_core.cpp:242-269 | a snapshot returned while neither stop nor fatal is set contains every commit whose bump preceded the call |
| Snapshots.ReachedIsReturned | src/service/open_event_core.cpp:249-269 | once the published generation has reached what a call requires it returns, with the published snapshot if and only if no attempt as recent has failed |
| Snapshots.MissingForcesLoad | src/service/open_event_core.cpp:284-287 | the refresher never skips a round while a bumped commit is missing |
| Snapshots.MissingCommitIsPublished | src/service/open_event_core.cpp:289-306 | the refresh that starts while a bumped commit is missing publishes a new version containing it, which every call waiting for it then gets, or reports a failure, and either way every waiting stream is told |
| Snapshots.StaleWhileStopping | src/service/open_event_core.cpp:249-255 | once the server is stopping, a returned snapshot can miss a commit bumped before the call |
| Snapshots.StaleAfterFatal | src/service/open_event_core.cpp:249-255 | so can one returned after a failed commit was declared fatal |
| Snapshots.HistoryIsRun | src/service/open_event_core.cpp:533-543 | the durable states of any such history, after the run that led to the store it began on, are a run of the log |
| ByteRuns.StepFits | src/storage/unified_storage.cpp:918-1009 | if the states before and after a step fit 64 bits, so does every write of its batch |
| ByteRuns.RunHasBytes | src/storage/unified_storage.cpp:628-642 | every run within 64 bits is a run of byte batches from the first batch on, and the bytes represent every state |
| ByteRuns.ReachableSnapshot | src/storage/unified_storage.cpp:613-621 | every state of every run within 64 bits has bytes and a snapshot of them of the kind the read path is proved for |
| ByteRuns.PublishedIsReadable | src/service/open_event_core.cpp:271-321 | the published snapshot of any history within 64 bits, on a new or an existing store, can be read from bytes that represent it |

## Left out

- Counters are unbounded numbers in the log, object and snapshot models; the server adds to 64-bit counters unchecked. The scan computes modulo 2^64 explicitly, and the byte store and the pages state the headroom they need.
- Text is a sequence of characters; the server counts bytes, so the length limits are stated per character. The JSON reader does not model duplicate member names.
- Payload literals are assembled from tags and separators rather than from raw string literals.
- Visibility numbers outside the enumeration are one `Unknown` case; the enumeration has exactly three named values here.
- RocksDB, protobuf and OpenSSL: batches are atomic, snapshots and iterators are faithful, serialized records parse back, tokens compare by equality. Read errors of the storage engine are not modelled.
- The constructor of a storage directory beyond its first batch, directory layout and schema checks.
- Clocks, timestamps and random bytes are inputs; deadlines and cancelled calls appear as an inactive call.
- Waiting times: that the refresher wakes up at all, and the polling interval of a stream that has caught up. Only what they do when they act is modelled.
- The availability check at the start of read requests; the write handlers have it as the `fatal` field.
- gRPC wiring, configuration, signal handling, error texts and diagnostics.
- Status, metadata and sequence-lookup getters, the channel listing filter and the token handlers as calls of their own; credentials are added and deleted as steps of the log model.
- ObjectIo.ObjectStorage.WriteObject: describes one call on its own; interleaving with other calls is the subject of `ObjectRuns`.
- ObjectIo.ObjectStorage.WriteLoop: the operating system's answers are a finite list; a list that runs out stands for an error.
- Subscription.RunSubscription: covers any finite stretch of a stream's life, given as a list of rounds.
- ChannelEvents.InitializedAccepted: the validator compares numbers as written; that rounding to doubles refuses none of them is `Doubles.AcceptedAsDouble`.
- ChannelEvents.MemberAccepted: the same.
- ByteRuns.RunHasBytes: covers runs whose numbers stay below 2^64 and whose tokens are bytes, as the server's own types make them.
