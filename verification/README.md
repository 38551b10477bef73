# A verified model of the chat message path

A chat message travels from a gateway into Kafka, is numbered by a sequencer, relayed to the gateways and
archived, cached and served as history, and is merged into one ordered view in the browser. This project models
the state machines along that path and a few beside it, and proves what they promise for every input, every
interleaving and every failure the code allows for.

How it is built:

- Code that changes things step by step is a class or a method with loops, proved against a specification
  function or property; its fields are those of the source. Network, database, clock and timer outcomes are
  nondeterministic choices, so a contract covers every outcome; a flag such as `calm` or `healthy` rules failures
  out, and the contract then says that the work gets done. Loops that run for ever in the source take a
  number of rounds; the contract holds for every number.
- Kafka topics are logs, tables are maps, Redis sorted sets are sets ordered by score. Writes whose
  acknowledgement is lost may have landed.
- Integers are unbounded except where width matters: message ids wrap at 64 bits, SHA-256 works on 32-bit words,
  shard numbers use the unsigned 64-bit value.

| file | part of the system |
|---|---|
| `Fips180`, `Fips180Constants`, `Fips180Example`, `UploaderSha256` | sections 5.1.1, 5.2.1 and 6.2.2 of FIPS 180-4, its constants and its example, and the browser's streaming SHA-256 |
| `Sequencer`, `SequencerLoop` | the sequencer (module `Sequencing`) and its consume, write and commit loops |
| `Archive`, `ArchiveWorker` | the message store, the archiver's crash-recovery protocol and its loop |
| `History`, `RoomCache` | cursor pagination and the cache of newest messages |
| `MergeMessages`, `EndToEnd` | the browser's merge, and sequencer, store and screen put together |
| `RoomQuery`, `RoomQuerySemantics`, `RoomQueryMasking`, `RoomQueryAcceptance`, `RoomQuerySchema` | the room-scoped SQL validator and what acceptance means |
| `Producer`, `Hub`, `Fanout`, `WritePump` | the gateway |
| `Latency`, `LoginLimiter`, `AgentInbox` | latency percentiles, login limiting, the agent's inbox |
| `Envelopes` | shared datatypes |

Results about the code that a reader of it may not expect:

- `LoginLimiter.LimiterBounds`: one window length lets through at most 2 * limit - 1 attempts, one fewer than two
  full windows; `IpBoundIsReached` shows a run that reaches it for an IP under every configuration with a window of at
  least two time units, `PairBoundIsReached` for an IP and user when the IP limit is at least twice the pair limit.
- `RoomQuerySemantics.UserIsMember`: the membership link of a `users` row works for every join kind unless it stands
  only in the ON of a LEFT JOIN of another `users` table; `RoomQuerySchema.UnenforcedLinkShowsStranger` shows that it
  fails there, and `RoomQuerySemantics.JoinedUserIsMember` that it fails only in tuples for which that join found no partner.
- `Latency.IndexRoundsUp`: a duration is rounded up to milliseconds except when it exceeds a whole millisecond by less
  than a microsecond; reported percentiles are then at most one millisecond low (`SingleIsReportedLow` is such a case), and
  `BucketsRoundUpIff` and `PercentileAgreesIff` say exactly when not.
- `MergeMessages.CopiesFoldUnlessBridged`: copies that share an alias end in one entry exactly if no message arrives
  that joins two groups of messages no chain of shared aliases linked before; `PartlyKeyedCopiesStayApart` is such an
  arrival, and the two entries stay apart.
- `Archive.ReturnsIffHeld`: a soft-deleted message can get into the cache again exactly if a flush whose transaction ran
  before the deletion is still to push it, or a history page read before the deletion is still to be backfilled.
- `Sequencing.NextIdAdvances`: ids increase exactly until the 64-bit id space is used up.

## Model

| member | source | states |
|---|---|---|
| UploaderSha256.LengthHalves | frontend/src/services/uploader.js:107-131 | the two 32-bit halves are the 64-bit bit count, for every size up to 2^53 bytes |
| UploaderSha256.EightBytes | frontend/src/services/uploader.js:107-131 | the eight length bytes are the big-endian 64-bit count |
| UploaderSha256.ZeroBytesIsUnique | frontend/src/services/uploader.js:107-131 | only one number of zero bytes below 64 completes the padded message |
| UploaderSha256.PaddingIsPad | frontend/src/services/uploader.js:107-131 | 0x80, those zeros and the length are the padding of section 5.1.1, one block or two |
| UploaderSha256.HexIsZerosAndNumeral | frontend/src/services/uploader.js:107-131 | toString(16) padded to eight digits is the fixed-width hexadecimal of a word |
| UploaderSha256.HexReadsBack | frontend/src/services/uploader.js:107-131 | the digits of a number below 16^n, 0 to 9 and a to f, read back as the number |
| UploaderSha256.MixingIsStandard | frontend/src/services/uploader.js:62-73 | the worker's table and its loop body, with its own shifts, are the constants and the round of section 6.2.2 |
| UploaderSha256.NextWordIsStandard | frontend/src/services/uploader.js:54-60 | the worker's schedule expression is that of section 6.2.2 |
| Fips180Constants.RoundConstants0To15 | frontend/src/services/uploader.js:22-31 | constants 0 to 15 are the first 32 fractional bits of the cube roots of the first sixteen primes, as integer inequalities |
| Fips180Constants.RoundConstants16To31 | frontend/src/services/uploader.js:22-31 | the same for the next sixteen |
| Fips180Constants.RoundConstants32To47 | frontend/src/services/uploader.js:22-31 | the same for the next sixteen |
| Fips180Constants.RoundConstants48To63 | frontend/src/services/uploader.js:22-31 | the same for the last sixteen |
| Fips180Constants.InitialWordsAreRoots | frontend/src/services/uploader.js:37-40 | the initial words are those bits of the square roots of the first eight primes |
| Fips180Example.DigestOfAbc | frontend/src/services/uploader.js:48-131 | the reference gives the standard's example: the digest of "abc" with all its intermediate words |
| UploaderSha256.Sha256Stream.constructor | frontend/src/services/uploader.js:36-46 | a new object covers the empty message |
| UploaderSha256.Sha256Stream.LoadBlock | frontend/src/services/uploader.js:48-53 | words 0 to 15 are the big-endian words of the block |
| UploaderSha256.Sha256Stream.ExtendSchedule | frontend/src/services/uploader.js:54-60 | all 64 words are the message schedule of the block |
| UploaderSha256.Sha256Stream.RunRounds | frontend/src/services/uploader.js:62-73 | 64 rounds of the standard from the given working variables |
| UploaderSha256.Sha256Stream.Process | frontend/src/services/uploader.js:48-79 | the chaining words become the compression of the old ones with the block |
| UploaderSha256.Sha256Stream.Update | frontend/src/services/uploader.js:81-105 | the message grows by the data, whole blocks hashed and the rest buffered; after the digest it fails and changes nothing |
| UploaderSha256.Sha256Stream.DigestHex | frontend/src/services/uploader.js:107-131 | the text is the hexadecimal SHA-256 of everything passed to update; a second call fails |
| UploaderSha256.HashChunks | frontend/src/services/uploader.js:81-131 | every way of cutting a message into updates gives SHA-256 of the whole |
| UploaderSha256.HashFile | frontend/src/services/uploader.js:134-148 | the slices the worker reads tile the file, so it reports the file's SHA-256 |
| UploaderSha256.SlicesTile | frontend/src/services/uploader.js:134-148 | consecutive slices leave no gap or overlap and the last one ends the file |
| Sequencing.NextIdAdvances | services/messages/sequencer/sequencer.go:45-49 | for any clock reading the next id is positive and larger, exactly while ids are left |
| Sequencing.Sequencer.Assign | services/messages/sequencer/sequencer.go:30-55 | the object steps as `AssignStep`; a rejection changes nothing, a retry returns the first message |
| Sequencing.StateMatchesLog | services/messages/sequencer/sequencer.go:30-55 | after any inputs the tables, counters and last id are those computed from the log alone |
| Sequencing.AssignMatchesReference | services/messages/sequencer/sequencer.go:30-55 | every answer is that of a stateless reference: the formal message of the first occurrence, or a rejection |
| Sequencing.NewRequestIsAccepted | services/messages/sequencer/sequencer.go:30-55 | the first well-formed input of a request is accepted at once, with only its id and number set |
| Sequencing.RetryGetsFirstAnswer | services/messages/sequencer/sequencer.go:33-44 | an input with a known sender and client id gets the first answer again iff room, content and kind agree, else a rejection, whatever came in between |
| Sequencing.RejectedIff | services/messages/sequencer/sequencer.go:31-44 | an input is rejected iff its room, sender or client id is missing, its client id is too long, or an earlier accepted input has its request with another payload |
| Sequencing.FormalIdsIncrease | services/messages/sequencer/sequencer.go:45-49 | ids are positive and strictly increasing over new messages under any clock |
| Sequencing.FormalIdFollowsClock | services/messages/sequencer/sequencer.go:45-49 | a new message gets (now - 1750000000000) * 4096 if that exceeds the last id, else the last id plus one |
| Sequencing.IdsAreLeast | services/messages/sequencer/sequencer.go:45-49 | ids in closed form: at least one per new request and, for each new request, its clock id plus one per new request since, and one of these bounds is met exactly |
| Sequencing.BoundedClockSuffices | services/messages/sequencer/sequencer.go:45-49 | a clock that stays a log length below the largest id never exhausts the ids |
| SequencerLoop.EmittedCopiesAreNews | services/messages/sequencer/batch.go:27-53 | dropping repeated ids from all that is emitted leaves one message per new request |
| SequencerLoop.NewsAreDense | services/messages/sequencer/sequencer.go:50-53 | the new messages of a room are numbered 1 to n in order of acceptance |
| SequencerLoop.AttemptKeepsConsistent | services/messages/sequencer/pipeline.go:21-39 | a write attempt that lands any prefix of the batch keeps the protocol invariant |
| SequencerLoop.ReaderSeesDenseRooms | services/messages/sequencer/batch.go:27-53 | in every reachable state a reader that drops repeated ids sees 1 to n in each room, one message per (sender, client id) |
| SequencerLoop.CommittedIsWritten | services/messages/sequencer/batch.go:102-107 | every committed input was rejected or has its answer on the output topic |
| SequencerLoop.OutputPassesGuards | services/messages/sequencer/relay_batch.go:22-32 | every output message has the positive room, id and number that relay and archiver demand |
| SequencerLoop.BatchingIsInvisible | services/messages/sequencer/batch.go:27-112 | two runs over the same inputs and clock, batched or not, show readers the same messages, one a prefix of the other |
| SequencerLoop.Loop.Collect | services/messages/sequencer/batch.go:55-98 | a batch is non-empty and within both bounds, and with the pending record makes up what was fetched; undisturbed it ends only at a bound or at the end of the topic |
| SequencerLoop.Loop.NumberBatch | services/messages/sequencer/batch.go:27-45 | the batch's outputs are the answers to its records in order |
| SequencerLoop.Loop.WriteWithRetry | services/messages/sequencer/pipeline.go:21-39 | retries keep the invariant; acknowledged means everything numbered has landed, and only a cancellation ends it otherwise |
| SequencerLoop.Loop.Handle | services/messages/sequencer/batch.go:27-53 | numbered, written until acknowledged, then committed; undisturbed it succeeds iff every record decodes |
| SequencerLoop.Loop.Round | services/messages/sequencer/batch.go:55-112 | a batch is committed only after its output is acknowledged, and nothing fetched is lost; undisturbed every round handles records |
| SequencerLoop.Loop.RunOne | services/messages/sequencer/pipeline.go:41-69 | the same for the loop that handles one record at a time |
| SequencerLoop.RunBatched | services/messages/sequencer/batch.go:27-112 | every run ends in a consistent state; handled batches concatenate to the handled input, each within its bounds; a run that has not stopped shows exactly the new messages of what it committed; undisturbed it handles the whole topic |
| SequencerLoop.Run | services/messages/sequencer/pipeline.go:41-69 | the same for the simple loop, so that it and a batched run that committed the same inputs show the same messages; undisturbed it handles the whole topic |
| Archive.ReconcileMessage | services/messages/models/message_identity.go:16-24 | accepts a numbered copy exactly if it agrees with the stored row in everything but the creation time, and hands back that row |
| Archive.InsertBatch | services/messages/repository/mysql_repository.go:29-32 | inserts every message that collides with no stored one |
| Archive.ReconcileBatch | services/messages/repository/mysql_repository.go:33-56 | succeeds exactly if every message has a row it agrees with, and returns those rows in order |
| Archive.Repository.SaveMessageBatch | services/messages/repository/mysql_repository.go:24-56 | commits the whole batch exactly if it reconciles, else changes nothing; after a database error, which a healthy database does not give, it has committed whole or not at all |
| Archive.InsertAllKeepsUnique | services/messages/repository/mysql_repository.go:29-32 | no two rows share an id, a request, or a positive number in a room |
| Archive.ReplayIsNoOp | services/messages/repository/mysql_repository.go:24-56 | replaying stored messages changes nothing |
| Archive.ReplayExtends | services/messages/archiver/worker-kafka.go:42-51 | replay from an earlier offset adds only what lies beyond what was stored |
| Archive.RunKeepsInv | services/messages/archiver/worker-kafka.go:141-235 | the recovery invariant holds after every run with crashes, restarts from the saved offset or from the first record, soft deletes and backfills anywhere |
| Archive.OffsetNeverPassesStore | services/messages/archiver/worker-kafka.go:149-171 | no record up to the saved offset is missing from the store; at the end of the topic the store is that of a run without crashes |
| Archive.StoredNeverChanges | services/messages/models/message_identity.go:16-24 | no stored message changes or disappears, for any topic contents |
| Archive.CleanFlushCommits | services/messages/archiver/worker-kafka.go:149-171 | on a sequencer's topic no flush is refused, wherever the worker restarted |
| Archive.RecoveryCompletes | services/messages/archiver/worker-kafka.go:42-51 | after any run, restart and replay reach the end of the topic and the crash-free store |
| Archive.FlushCachesUndeleted | services/messages/archiver/worker-kafka.go:97-126 | a flush caches only messages not soft-deleted when its transaction ran, however much of the push lands, and all of those when it lands whole |
| Archive.DeletedStaysOut | services/messages/archiver/worker-kafka.go:104-107 | once a message is deleted and no flush or history page that holds it from before is still to be pushed, no continuation of any run, backfills included, puts it into the cache again |
| Archive.ReturnsIffHeld | services/messages/api/history_handler.go:104-111 | some continuation caches a deleted message again iff a pending push or a pending backfill holds it |
| Archive.PageRowsIff | services/messages/repository/mysql_repository.go:60-79 | a history page holds exactly the rows asked for that are stored and not deleted |
| Archive.FillListIff | cache/redisconfig.go:152-187 | a backfill sends exactly the messages of its page with an exact positive score |
| Archive.DeletedFromPages | services/messages/repository/mysql_repository.go:60-79 | after a soft delete no page read at any later point of any run holds the message |
| ArchiveWorker.ArchiverLoop.constructor | services/messages/archiver/worker-kafka.go:38-52 | a worker resumes right after the saved offset of any earlier lifetimes, or at the first record when the offset cannot be read |
| ArchiveWorker.ArchiverLoop.Persist | services/messages/archiver/worker-kafka.go:157-160 | the store transaction as a step; a database error stops the worker with the batch stored or not; on a clean topic a healthy database always stores it |
| ArchiveWorker.ArchiverLoop.PushLatest | services/messages/archiver/worker-kafka.go:97-132 | pushes a prefix of the batch's undeleted numbered rows, in order, and all of them when Redis is healthy |
| ArchiveWorker.ArchiverLoop.SaveOffset | services/messages/archiver/worker-kafka.go:134-139 | stores the last offset read; an error may hide a stored offset and stops the worker |
| ArchiveWorker.ArchiverLoop.Flush | services/messages/archiver/worker-kafka.go:149-171 | store, cache, offset in this order; every failure, also one that hides a commit, stops the worker in a state of the step machine |
| ArchiveWorker.ArchiverLoop.ReadMessage | services/messages/archiver/worker-kafka.go:194-227 | takes the next record into the batch exactly if it has its numbers, else stops the worker |
| ArchiveWorker.ArchiverLoop.Round | services/messages/archiver/worker-kafka.go:176-234 | flushes on a tick or cancellation, reads the record that arrived and flushes the thousandth |
| ArchiveWorker.ArchiverLoop.Start | services/messages/archiver/worker-kafka.go:141-235 | however the loop is driven or cut off, it is a run of the step machine: its saved offset never passes the store, and messages deleted before do not enter the cache; healthy and on a clean topic, once all records have arrived and it flushes, the end of the topic is saved and everything stored |
| History.FiltersAgree | services/messages/repository/mongo_repository.go:98-141 | the MySQL and Mongo filters select the same rows: those below the cursor row, deleted or not; below the cursor's id if there is no such row, and all without a cursor |
| History.Page | services/messages/repository/mysql_repository.go:60-79 | at most limit rows in strictly decreasing order, and all of them when fewer |
| History.LeftOutIsBelow | services/messages/repository/mysql_repository.go:60-79 | what a full page leaves out lies below its last row |
| History.ClampLimit | services/messages/api/history_handler.go:53-57 | a limit of 1 to 100 is kept, a larger one becomes 100, any other 50 |
| History.ReverseInPlace | services/messages/repository/mysql_repository.go:81-84 | the page turned round in place |
| History.GetChatHistory | services/messages/api/history_handler.go:97-116 | next_cursor is the last row in page order, has_more says the page is full |
| History.WalkDeliversHistory | services/messages/api/history_handler.go:97-116 | following next_cursor ends and delivers every message present at the start and not deleted meanwhile exactly once, newest first, while newer ones arrive, and nothing that was deleted when its page was read |
| RoomCache.TrimIsExact | cache/redisconfig.go:173-174 | a trim leaves exactly the hundred newest of everything added, whatever was trimmed before |
| RoomCache.AddedIff | services/messages/archiver/worker-kafka.go:97-126 | what counts as added: an add of the message after which the key did not expire |
| RoomCache.LapseEmpties | cache/redisconfig.go:152-187 | an expired key leaves nothing |
| RoomCache.CacheStaysBracketed | services/messages/archiver/worker-kafka.go:97-126 | after every command of every interleaving the set lies between what was added and its hundred highest numbers |
| RoomCache.PushLatest | services/messages/archiver/worker-kafka.go:97-126 | the archiver's commands: an add and a trim per cacheable, undeleted message |
| RoomCache.Backfill | cache/redisconfig.go:152-187 | the backfill's commands: an add and a trim per cacheable message |
| RoomCache.PipelineAdds | services/messages/archiver/worker-kafka.go:104-107 | a pipeline adds a message exactly if one of its rows is it, numbered up to 2^53, and, for the archiver, not deleted |
| RoomCache.CanBeCompleted | cache/redisconfig.go:152-187 | any pipelines, whichever the server serves next, can be run to the end |
| RoomCache.QuiescentIsExact | cache/redisconfig.go:152-187 | when all pipelines have run, in any interleaving and with expiries, each room holds exactly its hundred newest, or all if there are fewer |
| RoomCache.GetLatestMessages | cache/redisconfig.go:129-149 | the members of the reply that decode, oldest first; of an exact reply all |
| RoomCache.CacheHitIsFirstPage | services/messages/api/history_handler.go:66-73 | an exact cache answers in full iff the room has enough numbered messages, and then with the store's first page, also with unnumbered messages in the room |
| RoomCache.SettledCacheServesFirstPage | services/messages/api/history_handler.go:66-73 | after any interleaving of pushes and backfills that together wrote the room's numbered rows, with no expiry, the cache answers in full iff there are enough, and with the store's first page |
| RoomCache.GetFirstPage | services/messages/api/history_handler.go:66-116 | with an exact cache the first page, cursor and has_more are those of the store, and the cache serves it iff it can in full |
| MergeMessages.MergeBatches | frontend/src/utils/message-order.js:20-38 | the loop over all batches computes `Merge` of their concatenation |
| MergeMessages.FoldKeepsInv | frontend/src/utils/message-order.js:21-30 | one entry per message, aliases leading to it, each entry the overlay of its copies with earlier fields winning |
| MergeMessages.MergeIsView | frontend/src/utils/message-order.js:20-38 | for fully keyed messages: exactly one entry each, in strictly increasing room_seq, for any order, repetition and overlap |
| MergeMessages.IncrementalMerge | frontend/src/utils/message-order.js:20-38 | merging as copies arrive equals merging everything at once, fields included |
| MergeMessages.ArrivalDoesNotMatter | frontend/src/utils/message-order.js:20-38 | lists with the same messages give the same identities in the same order |
| MergeMessages.CopiesFoldUnlessBridged | frontend/src/utils/message-order.js:21-30 | for any messages, keyed fully or not: copies that share an alias end in one entry iff no message's aliases lead to two entries when it arrives, iff none joins two unlinked groups |
| MergeMessages.BridgedIffJoinsUnlinked | frontend/src/utils/message-order.js:21-30 | that arrival, told from the messages alone: it shares aliases with two earlier messages no chain of earlier ones links |
| MergeMessages.ConsistentNeverBridged | frontend/src/utils/message-order.js:6-13 | fully keyed copies never meet that case |
| MergeMessages.PartlyKeyedCopiesStayApart | frontend/src/utils/message-order.js:21-30 | an arrival that bridges two entries, which stay two |
| MergeMessages.SharesIff | frontend/src/utils/message-order.js:6-13 | two messages share an alias iff they are of one room and agree on a positive id, a positive number, or client id and sender, `user_id` standing in for a missing `sender_id` |
| MergeMessages.StrongestAliasLeads | frontend/src/utils/message-order.js:24-25 | a message goes to the entry its id leads to, else its number, else its client id |
| MergeMessages.EntryFields | frontend/src/utils/message-order.js:26-29 | for any messages: an entry has the fields of the messages put into it, each as the first of them that has it says |
| MergeMessages.MergeIsInOrder | frontend/src/utils/message-order.js:31-37 | for any messages: the view holds each entry once, ordered by number, then id, then creation time |
| EndToEnd.OutputIsUnique | services/messages/sequencer/sequencer.go:30-55 | two output messages that share an id, a request or a place in a room are the same message |
| EndToEnd.OutputIsStored | services/messages/repository/mysql_repository.go:24-56 | the archiver stores every output message unchanged, whatever the topic repeats |
| EndToEnd.OutputIsClean | services/messages/archiver/worker-kafka.go:141-235 | every sequencer output is a topic on which archiving never stops and recovery completes |
| EndToEnd.ObjectsAreFaithful | frontend/src/utils/message-order.js:20-38 | two messages look alike on the screen only if they are equal |
| EndToEnd.ScreenShowsTheRoom | frontend/src/utils/message-order.js:20-38 | the merged view of any copies of a room's output is its messages 1 to n, in order, once each, unchanged |
| RoomQuery.IsUnconditionalTerm | services/agent/runtime/app/storage/room_query.py:148-157 | the upward walk succeeds exactly if every parent is AND or parentheses |
| RoomQuery.WalkFindsConjuncts | services/agent/runtime/app/storage/room_query.py:148-184 | the walk finds exactly the terms of the conjunction |
| RoomQuery.FindScopeEquality | services/agent/runtime/app/storage/room_query.py:186-199 | finds a room equality exactly if WHERE has one as a term |
| RoomQuery.HasEquality | services/agent/runtime/app/storage/room_query.py:160-175 | finds a link exactly if WHERE or some ON has it as a term |
| RoomQuery.CollectAliases | services/agent/runtime/app/storage/room_query.py:231-239 | accepts exactly known tables with distinct aliases and returns their table |
| RoomQuery.CheckScopes | services/agent/runtime/app/storage/room_query.py:284-291 | every scoped alias has its room equality |
| RoomQuery.CheckUsers | services/agent/runtime/app/storage/room_query.py:293-300 | every users alias is linked to a membership alias |
| RoomQuery.CaseDoesNotMatter | services/agent/runtime/app/storage/room_query.py:136-145 | names are compared up to the case of their letters, and otherwise exactly |
| RoomQuery.ColumnsOkIff | services/agent/runtime/app/storage/room_query.py:246-257 | the column check passes exactly if every column node anywhere in the expression is the room marker or an allowed column |
| RoomQuery.ValidateRoomSelect | services/agent/runtime/app/storage/room_query.py:231-300 | accepts exactly the statements that meet the table, column, scope and link rules |
| RoomQueryAcceptance.AcceptsIff | services/agent/runtime/app/storage/room_query.py:231-300 | acceptance read off the statement's nodes: known tables, distinct aliases, every column allowed, every scoped table fixed to the room and every users table linked by a top-level equality, either way round; nothing else is rejected |
| RoomQuerySemantics.ConjunctPasses | services/agent/runtime/app/storage/room_query.py:148-184 | under three-valued logic a condition that holds makes each of its terms hold |
| RoomQuerySemantics.ConditionsMean | services/agent/runtime/app/storage/room_query.py:148-184 | AND passes iff both sides do; an equality of numeric columns passes iff both are there and equal |
| RoomQuerySemantics.ScopedRowsAreInRoom | services/agent/runtime/app/storage/room_query.py:284-291 | in every tuple that passes WHERE, for every join kind and database, each scoped alias has a row of the current room |
| RoomQuerySemantics.OnHeld | services/agent/runtime/app/storage/room_query.py:160-175 | a joined tuple satisfied a join's ON, or that join was a LEFT JOIN without partner, or a later RIGHT JOIN dropped what came before |
| RoomQuerySemantics.JoinedUserIsMember | services/agent/runtime/app/storage/room_query.py:293-300 | a link in an ON makes the users row a member's, unless that join was a LEFT JOIN without partner for the tuple |
| RoomQuerySemantics.UserIsMember | services/agent/runtime/app/storage/room_query.py:293-300 | a users row of a qualifying tuple has a membership in the room, for every join kind, when its link is enforced |
| RoomQuerySemantics.OtherRoomsAreInvisible | services/agent/runtime/app/storage/room_query.py:272-300 | with inner and cross joins, deleting every row outside the room leaves the qualifying tuples unchanged |
| RoomQuerySemantics.HiddenColumnsDoNotMatter | services/agent/runtime/app/storage/room_query.py:246-257 | no expression of an accepted statement depends on a column outside the schema |
| RoomQueryMasking.StepMasks | services/agent/runtime/app/storage/room_query.py:246-257 | one join of blanked-out tuples and rows gives the blanked-out tuples of the join, for every kind of join |
| RoomQueryMasking.HiddenColumnsAreInvisible | services/agent/runtime/app/storage/room_query.py:246-257 | over a database without the hidden columns an accepted statement qualifies the same tuples without those columns, for every join kind |
| RoomQuerySchema.SchemaIsOk | services/agent/runtime/app/storage/room_query.py:23-103 | the shipped schema meets what the theorems need of it |
| RoomQuerySchema.UnenforcedLinkShowsStranger | services/agent/runtime/app/storage/room_query.py:148-175 | an accepted LEFT JOIN statement of which a qualifying tuple holds a user who is no member |
| Producer.NormalizedOptions | services/messages/producer/producer-kafka.go:75-92 | every bound is positive, kept if it was, and 1000, 2^20 or 20000 otherwise |
| Producer.MessageClient.Enqueue | services/messages/producer/producer-kafka.go:133-152 | oversized and closed are refused; else a done context wins over a full queue, a full queue over nothing, and every other request goes to the end of the queue |
| Producer.MessageClient.TakeFirst | services/messages/producer/producer-kafka.go:171-189 | the pending request first, then the queue; the loop ends only when stopping finds the queue empty, and an open loop takes what is queued |
| Producer.MessageClient.Collect | services/messages/producer/producer-kafka.go:190-225 | a batch within both bounds, the request that does not fit kept, order kept, under any interference; it ends only at a bound, at the timer, or, while stopping, at an empty queue |
| Producer.MessageClient.Write | services/messages/producer/producer-kafka.go:233-248 | the batch is written as a whole and each of its requests answered with the outcome |
| Producer.MessageClient.Round | services/messages/producer/producer-kafka.go:167-250 | accepted requests are written, in hand or queued, in acceptance order; a round that finds a request writes a batch, and once closed every round makes progress |
| Producer.MessageClient.Run | services/messages/producer/producer-kafka.go:167-250 | when the loop ends everything accepted was written in order and answered exactly once, each with the outcome of its own batch |
| Producer.MessageClient.Drain | services/messages/producer/producer-kafka.go:167-250 | after closing the loop ends, with everything answered |
| Producer.MessageClient.Close | services/messages/producer/producer-kafka.go:252-262 | nothing more is accepted, and it returns with every accepted request answered once |
| Producer.RepliesFollowTickets | services/messages/producer/producer-kafka.go:245-248 | replies go out once per request, in the order of acceptance |
| Producer.RepliesAreTruthful | services/messages/producer/producer-kafka.go:245-248 | every reply tells how the write of that request's batch went |
| Hub.ShardedHub.AddClientToRoom | services/gateway/websocket/hub.go:377-385 | the room index gains the client and nothing else |
| Hub.ShardedHub.RemoveClientFromRoom | services/gateway/websocket/hub.go:387-397 | the room index loses the client; an emptied entry is deleted |
| Hub.ShardedHub.Register | services/gateway/websocket/hub.go:165-193 | acts as the hub without shards and keeps the index exact |
| Hub.ShardedHub.Unregister | services/gateway/websocket/hub.go:196-227 | as the hub without shards; only the client's own user entry goes |
| Hub.ShardedHub.UpdateRooms | services/gateway/websocket/hub.go:230-260 | as the hub without shards |
| Hub.ShardedHub.JoinRoom | services/gateway/websocket/hub.go:263-285 | as the hub without shards |
| Hub.ShardedHub.LeaveRoom | services/gateway/websocket/hub.go:288-307 | as the hub without shards |
| Hub.ShardedHub.DisbandRoom | services/gateway/websocket/hub.go:310-327 | as the hub without shards, taken as one step |
| Hub.ShardedHub.Stats | services/gateway/websocket/hub.go:456-465 | the counts of the hub without shards |
| Hub.ShardedHub.RoomClients | services/gateway/websocket/hub.go:510-515 | the snapshot is the active clients that list the room |
| Hub.CountShards | services/gateway/websocket/hub.go:456-465 | the sums over the shards are the numbers of users and of occupied rooms, for every shard count |
| Hub.Execute | services/gateway/websocket/hub.go:165-327 | any run over any number of shards is the run of the hub without shards, with an exact two-way index and no empty entries, and each room holds exactly the clients put there last |
| Hub.RunKeepsUsers | services/gateway/websocket/hub.go:165-327 | every user entry is an active client of that user |
| Hub.ActiveIsListed | services/gateway/websocket/hub.go:165-227 | a client is active iff it was registered and not unregistered since |
| Hub.CurrentIsEntry | services/gateway/websocket/hub.go:165-227 | a user's entry is the last connection registered for the user, if that was not unregistered since |
| Hub.MemberIffPutLast | services/gateway/websocket/hub.go:165-327 | after any run a client is in a room iff the last operation that decides it, a registration, update, join, leave, disbanding or unregistration that concerns it, put it there |
| Hub.OldConnectionLeavesNewer | services/gateway/websocket/hub.go:207-212 | unregistering an old connection leaves the newer one and its rooms |
| Hub.ShardIsRemainder | services/gateway/websocket/hub.go:124-130 | the shard of an id is the remainder of its unsigned 64-bit value |
| Fanout.BalancedFits | services/gateway/websocket/hub.go:545-550 | a balanced batch fits the batch size, that many batches cover the list, and two or more clients make two batches |
| Fanout.SplitBatches | services/gateway/websocket/hub.go:545-553 | the batches partition the list in order; none is empty or too large, all but the last are of one size and the last is no larger, and there are two or the fewest that fit |
| Fanout.Dispatch | services/gateway/websocket/hub.go:509-574 | one attempt per client on both paths, for every interleaving of the pool's tasks |
| Fanout.DispatchMessage | services/gateway/websocket/hub.go:509-574 | one attempt for each active client that lists the room, and for no other |
| WritePump.LinesOfJoin | services/gateway/websocket/client.go:333-345 | splitting a frame at newlines gives back its newline-free payloads |
| WritePump.Connection.TrySend | services/gateway/websocket/client.go:153-165 | queues exactly when open and not full |
| WritePump.Connection.CloseSend | services/gateway/websocket/client.go:139-150 | the channel is closed once, however often it is called |
| WritePump.Connection.StopFlushTimer | services/gateway/websocket/client.go:309-320 | leaves no running timer and no stale tick |
| WritePump.Connection.Flush | services/gateway/websocket/client.go:322-377 | writes the batch as one newline-joined frame, or fails and keeps it; on a healthy connection it does not fail |
| WritePump.Connection.TakeMessage | services/gateway/websocket/client.go:389-415 | the message joins the batch; the batch goes out exactly if it then has 64 messages or 64 KiB; the timer is armed exactly while a batch waits, with others acting between the steps |
| WritePump.Connection.TakeTick | services/gateway/websocket/client.go:416-421 | when the timer fires, the whole batch goes out as one frame |
| WritePump.Connection.Round | services/gateway/websocket/client.go:387-437 | order, bounds and timer hold in every interleaving; the case chosen is taken up if it is ready; a message taken up is the next accepted one, a taken tick puts everything gathered on the wire; however the round ends the frames are a prefix of what was accepted, and all of it when the closed channel ends the pump |
| WritePump.Connection.Run | services/gateway/websocket/client.go:293-437 | the same for whole runs: messages leave the queue one per message round, everything gathered before a taken tick is on the wire, and a healthy connection ends only when the channel is closed |
| WritePump.Connection.ClientRecovers | services/gateway/websocket/client.go:333-345 | a client that splits the frames has the accepted messages in order |
| Latency.IndexRoundsUp | shared/observability/metrics/api.go:68-78 | exactly when a bucket stands for the duration rounded up to milliseconds within 1 to 10000; else it stands for one less; always within a millisecond of the duration up to ten seconds |
| Latency.TargetIsCeil | shared/observability/metrics/api.go:103 | the target count is the share rounded up, for whole percents |
| Latency.FirstBucketIsRank | shared/observability/metrics/api.go:104-113 | the first bucket whose cumulative count reaches k holds the k-th sample in order |
| Latency.PercentileMeans | shared/observability/metrics/websocket_pipeline.go:93-102 | a percentile is a sample that at least that share of the samples do not exceed, and the least such number |
| Latency.BucketPercentile | shared/observability/metrics/api.go:99-115 | the histogram percentile is the nearest-rank percentile of the bucketed samples; it is that of the durations rounded up, or one less, and equal when every duration rounds up |
| Latency.PercentileOfRoundedUp | shared/observability/metrics/api.go:68-115 | for all samples the percentile of the buckets is that of the durations rounded up or one less, and equal under the condition of `IndexRoundsUp` |
| Latency.BucketsRoundUpIff | shared/observability/metrics/api.go:68-78 | the sorted buckets are the sorted durations rounded up iff every duration rounds up |
| Latency.PercentileAgreesIff | shared/observability/metrics/api.go:99-115 | a reported percentile is that of the durations rounded up iff enough of these do not exceed it |
| Latency.SingleIsReportedLow | shared/observability/metrics/api.go:68-115 | one duration just above a whole millisecond is reported one millisecond low |
| Latency.PercentilesGrow | shared/observability/metrics/websocket_pipeline.go:93-102 | larger percents give no smaller values |
| Latency.SecondWindow.Observe | shared/observability/metrics/api.go:53-66 | with times that do not go back, the ring keeps the last three seconds exactly |
| Latency.SecondWindow.LatestComplete | shared/observability/metrics/api.go:82-97 | reports exactly the samples of second now-1, p50 <= p95 <= p99, tied to the durations rounded up to milliseconds |
| LoginLimiter.WindowIsBounded | services/auth/security/login_protector.go:135-141 | one window lets at most the limit through |
| LoginLimiter.EntryIsWindow | services/auth/security/login_protector.go:135-141 | a counter counts the attempts since the one that opened the window: the first, or one a window length after the start of the window before |
| LoginLimiter.VerdictIff | services/auth/security/login_protector.go:68-94 | an attempt is refused for its IP iff it exceeds the limit in that IP's window, else for IP and user iff it exceeds the limit among those the IP limit let through |
| LoginLimiter.IntervalIsBounded | services/auth/security/login_protector.go:135-141 | any half-open interval of one window length lets at most 2 * limit - 1 through |
| LoginLimiter.BoundIsTight | services/auth/security/login_protector.go:135-141 | for every limit and every window of at least two, times at which one key's counter reaches the bound |
| LoginLimiter.LimiterBounds | services/auth/security/login_protector.go:68-94 | that bound for every IP and every (IP, user) in every run with times that do not go back |
| LoginLimiter.IpBoundIsReached | services/auth/security/login_protector.go:68-94 | under every configuration with an IP window of at least two, a run of the limiter in which an IP reaches the bound |
| LoginLimiter.PairBoundIsReached | services/auth/security/login_protector.go:68-94 | the same for an IP and user, when the IP limit leaves room for the attempts |
| LoginLimiter.Cleanup | services/auth/security/login_protector.go:122-133 | removes exactly the expired entries |
| LoginLimiter.IncrementAgrees | services/auth/security/login_protector.go:135-141 | a swept entry counts on as if it were still there |
| LoginLimiter.NormalizedParts | services/auth/security/login_protector.go:143-145 | the normalised name is the name without the spaces around it and with small letters for capitals |
| LoginLimiter.SpellingDoesNotMatter | services/auth/security/login_protector.go:143-145 | names that differ in case and in spaces around them have one counter |
| LoginLimiter.LoginProtector.Sweep | services/auth/security/login_protector.go:76-79 | removes the expired entries when it is due and sets the next time within the shorter window, else changes nothing |
| LoginLimiter.LoginProtector.Allow | services/auth/security/login_protector.go:68-94 | answers as the limiter that never deletes |
| AgentInbox.FormalEvents | services/agent/runtime/app/workers/consumer.py:46-52 | a formal message has one event id at every offset, and no other record shares it |
| AgentInbox.OtherEvents | services/agent/runtime/app/workers/consumer.py:46-52 | records without message id share an event iff sender and client id agree; without client id either, iff they are the same record |
| AgentInbox.RunKeepsInv | services/agent/runtime/app/workers/pipeline.py:48-241 | the inbox invariant holds in every run with redelivery, requeues, lost leases and several workers |
| AgentInbox.OneRowPerMessage | services/agent/runtime/app/workers/consumer.py:56-103 | a formal message has at most one row |
| AgentInbox.RecordIffDecided | services/agent/runtime/app/workers/pipeline.py:199-241 | a row has a moderation record iff it is approved, rejected, up for review or chunked, and the record says so |
| AgentInbox.ChunkedOnlyFromApproved | services/agent/runtime/app/workers/pipeline.py:352-358 | a row becomes chunked only from approved |
| AgentInbox.DecisionWasSaid | services/agent/runtime/app/workers/pipeline.py:199-241 | every moderation record is what the saved results of a batch holding the row said of its message, or review where they said nothing |
| AgentInbox.NothingPassesUnsaid | services/agent/runtime/app/workers/pipeline.py:199-241 | a row is approved or chunked only after a saved result that approves its message, and rejected only after one that rejects it |
| AgentInbox.CanBeDecided | services/agent/runtime/app/workers/pipeline.py:48-241 | after any run, lost leases included, a pending or processing row can still get any decision |
| AgentInbox.CanBeChunked | services/agent/runtime/app/workers/pipeline.py:61-88 | after any run an approved row can still be chunked |
| AgentInbox.DecisionsStand | services/agent/runtime/app/storage/models.py:111-113 | a recorded decision is never replaced |
| AgentInbox.CommittedIsHandled | services/agent/runtime/app/workers/consumer.py:66-101 | every committed record was skipped or has its row |
| AgentInbox.ClaimBatch | services/agent/runtime/app/workers/pipeline.py:132-159 | pending rows go to the worker, exactly those of bots are ignored |
| AgentInbox.ModerateBatch | services/agent/runtime/app/workers/pipeline.py:199-241 | saves the whole batch exactly if no row has a record yet, else nothing; saved, each row has the status and record the results say of its message, review where they say nothing, and exactly the approved rows are handed on |
| AgentInbox.AgentStore.ConsumeOne | services/agent/runtime/app/workers/consumer.py:66-101 | one record as one step of the inbox, committed or not: a pending row with its event unless there is one |
| AgentInbox.AgentStore.ClaimRoom | services/agent/runtime/app/workers/pipeline.py:132-159 | the claim as one step of the inbox, with exactly the bots' rows ignored |
| AgentInbox.AgentStore.SaveModeration | services/agent/runtime/app/workers/pipeline.py:199-241 | the save as one step with these statuses and records, rolled back as a whole on a duplicate record |
| AgentInbox.AgentStore.MarkBatchChunked | services/agent/runtime/app/workers/pipeline.py:352-358 | the batch as one step of the inbox: exactly its rows become chunked |

## Left out

- UploaderSha256.Sha256Stream.DigestHex: asks for at most 2^53 bytes, the largest integer a JavaScript number counts exactly; beyond it the source's byte counter is not exact.
- Text is a sequence of characters; where the source counts bytes, as in the length of client ids and payloads, a character is a byte.
- Sequencing.FormalIdsIncrease: assumes ids are left before each input (`BoundedClockSuffices` gives a condition on the clock); room counters and creation times do not wrap.
- Sequencer restart and several sequencers: the code does not offer them.
- Protobuf envelopes: records arrive decoded, or marked as not decodable.
- The relay's own loop: it is `consumeBatches` again; only the checks it makes of the sequencer's output and the copies it can produce are covered.
- SequencerLoop.Run: takes a bound on rounds, as every endless loop here does.
- Archive.DeletedStaysOut: starts when no flush or page that holds the message from before its deletion is pending; `ReturnsIffHeld` shows that a pending one does bring it back, as the source does.
- The archiver without Redis, the search index, and legacy messages without numbers in the archived topic.
- History.WalkDeliversHistory: new rows rank above all rows present when the walk started, as the sequencer numbers them.
- RoomCache: the contents after soft deletes, failed pushes and partial replay after expiry; nothing in the code keeps the cache equal to the store then. Equal scores do not occur for numbered messages of one room.
- MergeMessages: identifiers are decoded integers and aliases are values instead of text; the locale order of creation times, which decides only between equal numbers and ids, is a parameter.
- MergeMessages.MergeIsView: is about fully keyed messages of one room; for the rest see `CopiesFoldUnlessBridged`.
- RoomQuery.ValidateRoomSelect: covers tables, aliases, columns, room equalities and membership links; parsing, comments, length, stars, the function list, the placement of further room markers and LIMIT only reject more or change how many rows come back. JOIN USING and NATURAL JOIN, which compare columns without naming them in an expression, are not modelled. A database qualifier of a table, which the validator does not look at, has no counterpart: tables are those of the one database.
- RoomQuerySemantics.OtherRoomsAreInvisible: is about inner and cross joins; with outer joins deleting rows can turn matches into missing partners.
- RoomQuerySemantics.UserIsMember: asks that each ON names only tables joined by then, which the database itself demands. An unenforced link is not proved to fail in every statement, since other conditions of the statement may restrict the users as well.
- Producer: message encoding, write timeouts and metrics; a caller that gives up waiting does not change what is written.
- Hub: each operation is one step, disbanding included, and a client is registered while it is not active; the code between the two phases of disbanding does not keep the two-way index.
- Kick, CloseConnection, snapshots of connections and the cross-node listener.
- WritePump.Connection.Run: a frame whose writing fails may be partly sent; it shows that the timer is set whenever a batch waits and what holds at the end; that a ready timer is eventually served is the scheduler's part.
- Latency.SecondWindow.Observe: bucket counts are sequences, replaced instead of written in place; seconds are not negative; floating point is exact.
- secondLatencyWindow: only its percentile; the ring is the same one.
- LoginLimiter.LoginProtector.Allow: user names are normalised over ASCII and (IP, user) is a pair instead of a joined text; the bound on concurrent password checks is not modelled.
- AgentInbox.OtherEvents: asks that the topic is not called "client", since a record's own event would then look like a client's.
- AgentInbox: one partition; a stale lease is any claimed row; conversations, chunk texts and removal requests; the unique keys and transactions are those of the database.
- HTTP routing, authentication, object storage, language models, dashboards and the user interface.
