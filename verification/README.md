# SoliDB in Dafny

A model of the stateful core of SoliDB, a distributed document database written in Rust, and
proofs about it. The model takes the form of the code: objects whose methods update fields are
classes proved against functions on their contents, algorithms with loops are methods, value
code is functions, and concurrent protocols are state machines over their atomic steps.

| modules | what they model |
|---|---|
| `HybridClock`, `ClockKey`, `ClockGenerator` | hybrid logical clocks, their sortable string keys, and the generator that shares two atomic words between threads |
| `Membership`, `MemberHistory`, `JoinProtocol`, `JoinMesh`, `JoinLimits` | cluster membership and the join handshake, as nodes and a bag of messages in flight; when it ends in symmetric knowledge and in a full mesh, and runs in which it does not |
| `SyncIntake`, `SyncApply` | replication intake: dropping own and already seen entries, then regrouping upserts before deletes |
| `LexerSpec`, `Lexer`, `LexerComposition`, `LexerTemplates`, `LexerRoundTrip`, `LexerMeaning`, `LexerReading`, `LexerTexts` | the query language lexer: functions on the rest of the input, the cursor that computes them in place, how texts compose and print, and which texts mean which tokens |
| `JobQueue`, `JobHistory`, `Cron`, `CronPass`, `CronFirings`, `CronHistory` | job and cron workers that claim documents by revision, when a scheduled time fires once, and what stored and inserted jobs say about the past |
| `Channels`, `ChannelHalves`, `ChannelPresence` | WebSocket channels, presence and their counters; the same calls interleaved between their two locks; who is shown as whom |
| `Restore`, `RestoreLoop`, `RestoreReading` | the restore program's framing and batching, its reading loop, and what is read from any stream |
| `Conversion` | JSON to Lua values and back |
| `Reputation`, `RateSpread` | incremental agent statistics and the trust score |
| `CursorStore` | result cursors handed out batch by batch |

`Wrappers` and `Numbers` hold shared types and integer ranges. `dafny verify dfyconfig.toml` checks
everything.

Several properties one would expect are false of the code. For each the project keeps the code as
it is and names a lemma that exhibits inputs, or the theorem itself gives the value for every failing
input. For all but the three marked one-way it also states exactly when the property holds, as an
if-and-only-if:

- `receive` can return a clock that is not newer than the local one, although its comment promises so
  (`HybridClock.ResetIsReachable`; exact: `HybridClock.CausalOrderIffNoReset`).
- Regrouping a replication batch can change its result (`SyncApply.ReinsertIsLost`,
  `SyncApply.FirstPartialUpdateIsLost`; exact: `SyncApply.GroupedEqualsOneByOneIffSafe`). The batched
  upsert merges each document into what was stored before the batch, not into the previous upsert of
  the same batch, so not only deletes followed by inserts are affected.
- Replicated entries that arrive out of order are dropped for good (`SyncIntake.LateEntryIsDropped`;
  exact: `SyncIntake.NothingMissedIffInOrder`).
- Two threads can be given the same clock (`ClockGenerator.OverlapDuplicates`; exact for any two
  calls of any interleaving: `ClockGenerator.DuplicateIff`, for two `now` calls:
  `ClockGenerator.DuplicateIffSameCounter`, and for whole interleavings of `now` calls:
  `ClockGenerator.NowRisesIffPredecessorSeen`).
- The retry delay collapses to zero from the 63rd retry on (`JobQueue.DelayExactIff`), and a negative
  retry limit means billions of attempts (`JobQueue.LimitIsMaxRetriesIff`).
- A retry does not clear a job's start time, because updates merge and an empty field is not written
  (`JobQueue.RetryKeepsStart`; exact for every field: `JobQueue.FieldsTellThePast`).
- A cron job fires twice for one scheduled time when the clock is set back between reading and
  claiming (`CronFirings.ClockSetBackFiresTwice`; exact while schedules are not edited:
  `CronFirings.FiringsRiseIffTimely`; one-way across edits: `CronFirings.TimelyFiringsRise`).
- Careless subscribe and unsubscribe calls break the subscriber count
  (`Channels.SecondSubscribeMiscounts`, `Channels.StrayUnsubscribeMiscounts`; exact:
  `Channels.SubscribeMirrorsIff`, `Channels.UnsubscribeMirrorsIff`).
- Unregistering a connection in the middle of its own call breaks the count too
  (`Channels.OverlapLeaksSubscriber`). One-way: without that, every interleaving of polite calls ends
  with correct counts (`ChannelHalves.MirroredWhenFinished`); two opposite mistakes can cancel, so the
  converse does not hold.
- A node that takes a join request while it marks itself as syncing learns the newcomer but is not
  named in its own answer, so that at rest it can know a node that does not know it
  (`JoinLimits.SyncingSeedIsNotIntroduced`; exact for one delivery: `JoinProtocol.StepMirroredIff`, for
  all states of a run: `JoinProtocol.RunMirroredIff`, at rest: `JoinProtocol.SymmetricAtRestIff`).
- A join through a node that is itself still joining can leave nodes that do not know each other
  (`JoinLimits.OverlapLeavesStrangers`), and so can a join through the founder while it suspects a
  member (`JoinLimits.SuspicionLeavesStrangers`). One-way: joins through nodes that already know the
  founder end in a full mesh however they overlap, as long as every join request is handled by a node
  that at that moment counts everybody it knows as active (`JoinMesh.GuidedJoinsMesh`); other joins may
  still do so, depending on the order of messages.
- Nulls and empty arrays do not survive the way through Lua (`Conversion.NullsAndEmptyArraysAreLost`;
  exact: `Conversion.RoundTripIff`; what comes back instead: `Conversion.RoundTripIs`).
- Slashes in database names can make the restore skip a collection (`Restore.SlashSkipsCreation`;
  exact: `Restore.CreatedIffNoClash`).
- A cursor with batch size zero never ends (`CursorStore.ZeroBatchStalls`; exact:
  `CursorStore.FetchStallsIff`).

The clock is an input wherever the code reads it. Numbers that the code keeps in machine words are
unbounded here except where the width matters: clock counters wrap at 2^32, keys hold 64-bit and
32-bit fields, the lexer's integers and the JSON integers fit 64 signed bits, and retry counters, the
cast of the retry limit and the delay product wrap as they do in a release build. Floating-point
numbers are exact reals in `Reputation` and `Conversion` and digit text in the lexer.

## Model

| member | source | states |
|---|---|---|
| `HybridClock.TickNewerIff` | src/cluster/hlc.rs:39-58 | a tick is newer than the clock it starts from if and only if time moved on or the 32-bit counter does not wrap |
| `HybridClock.TickIsLeast` | src/cluster/hlc.rs:39-58 | a tick gives the least clock of the node that is above the one it starts from and not behind the wall clock, while the counter does not wrap |
| `HybridClock.ReceiveIsLeast` | src/cluster/hlc.rs:61-90 | a receive gives the least clock of the node above both clocks and not behind the wall clock; in the reset, the least such clock above the remote one |
| `HybridClock.ReceiveNewerThanSelfIff` | src/cluster/hlc.rs:61-90 | a receive is newer than the local clock if and only if it misses the case where the wall clock equals the local physical time and exceeds the remote one |
| `HybridClock.ReceiveNewerThanRemote` | src/cluster/hlc.rs:61-90 | a receive is always newer than the remote clock, strictly in its numeric part |
| `HybridClock.CausalStepsAbove` | src/cluster/hlc.rs:39-101 | in a run without that reset, every event's clock is strictly above those of all its causal predecessors |
| `HybridClock.ResetBreaksOrder` | src/cluster/hlc.rs:67-72 | every receive that hits the reset yields a clock that is not newer than its own predecessor |
| `HybridClock.CausalOrderIffNoReset` | src/cluster/hlc.rs:39-101 | over all runs of ticks and receives with arbitrary wall clocks and no counter overflow: clocks respect causality if and only if no receive hits the reset |
| `HybridClock.PhysicalIsAWallReading` | src/cluster/hlc.rs:39-90 | every physical time in a run is a wall reading of the event itself or of a causal predecessor |
| `HybridClock.PhysicalBoundedByWalls` | src/cluster/hlc.rs:39-90 | no clock runs ahead of the largest wall reading taken so far |
| `HybridClock.ResetIsReachable` | src/cluster/hlc.rs:67-72 | a concrete four-event run that hits the reset and violates causal order |
| `ClockKey.KeyRoundTrip` | src/cluster/hlc.rs:109-132 | parsing a printed key gives the clock back, for all 64-bit times, 32-bit counters and node ids, dashes included |
| `ClockKey.HexOrder` | src/cluster/hlc.rs:109-114 | zero-padded hexadecimal of one width compares as text the way the numbers compare |
| `ClockKey.KeyOrderIsClockOrder` | src/cluster/hlc.rs:93-114 | comparing keys as text gives exactly the clock order |
| `ClockKey.ReprintIffCanonical` | src/cluster/hlc.rs:109-132 | a text is unchanged by parsing and printing if and only if it has the canonical layout of two padded lower-case fields |
| `ClockKey.FromKeyIff` | src/cluster/hlc.rs:117-132 | a text is read as a clock if and only if it is two fields and the node id joined by dashes, each field the hexadecimal form of its number in any width and case, perhaps after a plus sign, and both numbers fit their words |
| `ClockGenerator.AtomicU64.CompareExchange` | src/cluster/hlc.rs:164-192 | succeeds if and only if the word still holds the expected value, and only then stores |
| `ClockGenerator.Generator.Now` | src/cluster/hlc.rs:164-192 | the retry loop leaves the two words, and returns the clock, that one call computes from the words it found |
| `ClockGenerator.Generator.Receive` | src/cluster/hlc.rs:195-229 | the same for a call with a remote clock, in all four cases |
| `ClockGenerator.GeneratorIsHybridClock` | src/cluster/hlc.rs:164-229 | the clock a call issues is the one `tick` or `receive` gives from the two words |
| `ClockGenerator.UninterruptedCall` | src/cluster/hlc.rs:164-229 | among the interleaved steps, a call that no other thread interrupts leaves and returns just that, from any state |
| `ClockGenerator.SequentialStrictIffResetFree` | src/cluster/hlc.rs:164-229 | calls made one after another return strictly increasing clocks if and only if no receive hits the reset, while counters fit 32 bits |
| `ClockGenerator.SequentialNowStrict` | src/cluster/hlc.rs:164-192 | `now` alone is strictly increasing whatever the wall clock does |
| `ClockGenerator.StepChained` | src/cluster/hlc.rs:164-229 | every atomic step of any thread keeps the installed words a chain that never moves the physical word back |
| `ClockGenerator.PhysicalNeverDecreases` | src/cluster/hlc.rs:164-229 | in every interleaving of loads, compare-exchanges and stores of any number of threads the physical word never decreases |
| `ClockGenerator.ReturnedTimesBounded` | src/cluster/hlc.rs:164-229 | in every interleaving the physical word bounds all returned times, and no call returns a time behind its wall reading or its remote clock |
| `ClockGenerator.DuplicatesNeverAdvance` | src/cluster/hlc.rs:164-229 | in every interleaving, whenever two calls of any kind install the same words the later one left the physical word alone |
| `ClockGenerator.DuplicateIff` | src/cluster/hlc.rs:164-229 | in every interleaving any two calls, with or without remote clocks, get the same clock if and only if they end up with the same time and both restart the counter, or neither does and both were shown the same counter for that time, while counters fit 32 bits |
| `ClockGenerator.DuplicateIffSameCounter` | src/cluster/hlc.rs:164-192 | for two `now` calls: if and only if both started from the same physical word, neither moved it, and both had loaded the same counter |
| `ClockGenerator.NowRisesIffPredecessorSeen` | src/cluster/hlc.rs:164-192 | an interleaving of `now` calls installs strictly increasing words if and only if every call that leaves the physical word alone had loaded a counter not behind the one its predecessor computed |
| `ClockGenerator.OverlapDuplicates` | src/cluster/hlc.rs:164-192 | an interleaving of two threads in which both get the same clock |
| `Membership.ClusterState.AddMember` | src/cluster/state.rs:59-73 | stores the member with a fresh heartbeat counter and reports whether it was unknown |
| `Membership.ClusterState.RemoveMember` | src/cluster/state.rs:75-78 | removes exactly that member |
| `Membership.ClusterState.UpdateHeartbeat` | src/cluster/state.rs:90-102 | changes only a known member's sequence and status |
| `Membership.ClusterState.MarkStatus` | src/cluster/state.rs:104-109 | changes only a known member's status |
| `Membership.ClusterState.ActiveNodes` | src/cluster/state.rs:111-118 | lists every active member's node, nothing else, and none twice |
| `Membership.ClusterManager.JoinCluster` | src/cluster/manager.rs:219-224 | sends one join request to the seed |
| `Membership.ClusterManager.HandleMessage` | src/cluster/manager.rs:226-296 | new table and messages sent are what the handler relation allows for each kind of message |
| `Membership.AbsorbKeys` | src/cluster/manager.rs:243-271 | a join response adds exactly the listed peers other than the node itself and keeps the node's own entry |
| `Membership.AbsorbGreets` | src/cluster/manager.rs:249-267 | every peer that was new is sent a join request |
| `Membership.AbsorbSends` | src/cluster/manager.rs:249-267 | nothing but join requests to listed peers is sent |
| `Membership.AbsorbEntries` | src/cluster/manager.rs:249-252 | every entry written carries a listed peer, as active |
| `MemberHistory.EntriesTellHistory` | src/cluster/state.rs:59-109 | after any adds, heartbeats, marks and removals: a node has an entry if and only if it was added after its last removal; the entry holds the node added last, the sequence of the last heartbeat since then or zero, and the status set last, unless that was a suspicion and a heartbeat came since |
| `MemberHistory.HandlesCaused` | src/cluster/manager.rs:226-296 | a handler updates the table by exactly the adds, heartbeats and removals its message stands for, in order |
| `MemberHistory.MembersTellMessages` | src/cluster/manager.rs:226-296 | so the table of every node, whatever messages and marks it took since it was created, tells its past in that way |
| `JoinProtocol.HandlesTeaches` | src/cluster/manager.rs:226-271 | a handler never forgets a member and learns whoever the message introduces |
| `JoinProtocol.HandlesLearns` | src/cluster/manager.rs:226-271 | a handler learns only nodes that the message introduces |
| `JoinProtocol.HandlesAnswersIff` | src/cluster/manager.rs:226-271 | whoever a handler learns about is sent a message that introduces the handler, if and only if it was learned from a response or the handler counts itself as active |
| `JoinProtocol.PendingTeaches` | src/cluster/manager.rs:226-271 | delivering a message that introduces u makes its receiver know u |
| `JoinProtocol.LostIff` | src/cluster/manager.rs:226-271 | u knows v while v neither knows u nor is about to, after a step, if and only if this held before and no introduction is now in flight, or the step has u take a request of v while not active itself and v unaware of it |
| `JoinProtocol.StepMirroredIff` | src/cluster/manager.rs:226-271 | from a state in which everybody known knows back or is about to, a step leads to such a state if and only if it is no such delivery |
| `JoinProtocol.RunMirroredIff` | src/cluster/manager.rs:219-271 | in every state of a run everybody known knows back or is about to, if and only if no delivery of the run is of that kind |
| `JoinProtocol.LostIffForgotten` | src/cluster/manager.rs:219-271 | in every state of every run, u knows v for nothing if and only if some delivery had u take a request of v in that way and no introduction of u to v was in flight since |
| `JoinProtocol.SymmetricAtRestIff` | src/cluster/manager.rs:219-271 | with nothing in flight, u and v know each other or neither the other, if and only if neither took the other in without an introduction later |
| `JoinProtocol.SymmetricAtRest` | src/cluster/manager.rs:219-271 | with nothing in flight, knowledge is symmetric when no delivery of the run was of that kind |
| `JoinProtocol.DeliverDecreases` | src/cluster/manager.rs:226-271 | every delivery strictly lowers three per pair of strangers, two per request and one per response |
| `JoinProtocol.DeliveriesBounded` | src/cluster/manager.rs:219-271 | a run delivers at most three messages per initial pair of strangers plus two per join made |
| `JoinProtocol.DeliveryEnabled` | src/cluster/manager.rs:226-271 | as long as messages are in flight one can be delivered; with the bound, every handshake comes to rest |
| `JoinMesh.StepGathers` | src/cluster/manager.rs:226-271 | every status change, and every delivery in which a join request reaches a node that counts everybody it knows as active, keeps the cluster gathered: members find the founder, and any two nodes the founder knows have met or are about to |
| `JoinMesh.GuidedJoinsMesh` | src/cluster/manager.rs:219-271 | from the start, in every run whose joins go through nodes that already know the founder and whose join requests are handled by nodes that then count everybody they know as active, however joins overlap, messages are ordered and statuses change otherwise: at rest the founder and everybody who joined are a full mesh |
| `JoinMesh.ActiveJoinsMesh` | src/cluster/manager.rs:219-271 | in particular while nobody is marked other than active, and then everybody in the mesh counts everybody as active |
| `JoinMesh.OrderlyJoinsMesh` | src/cluster/manager.rs:219-271 | in particular when each join, by a node that knows only itself and through any member, waits until nothing is in flight, and join requests are handled by nodes that then count everybody they know as active |
| `JoinMesh.JoinExtendsMesh` | src/cluster/manager.rs:219-271 | a newcomer that asks any member of a full mesh at rest: when the traffic has died out the mesh has grown by exactly that node, in every message order and through any status changes, as long as join requests are handled by nodes that then count everybody they know as active |
| `JoinMesh.ActiveJoinExtendsMesh` | src/cluster/manager.rs:219-271 | in particular when all concerned are active at first and nobody is marked otherwise, and then the grown mesh is all active |
| `JoinLimits.OverlapLeavesStrangers` | src/cluster/manager.rs:219-271 | a join through a node that is itself still joining can come to rest with two nodes that know a third but not each other |
| `JoinLimits.SuspicionLeavesStrangers` | src/cluster/state.rs:104-118 | two nodes that join through the same founder one after the other can remain strangers at rest when the founder does not count the first as active in between |
| `JoinLimits.SyncingSeedIsNotIntroduced` | src/sync/worker.rs:356-390 | a join request taken while the node marks itself as syncing comes to rest with the node knowing the newcomer and not the other way round |
| `SyncIntake.OriginSequences.CheckAndUpdate` | src/cluster/state.rs:48-57 | accepts a sequence if and only if it exceeds the largest seen from its origin, and keeps the larger of both |
| `SyncIntake.OriginSequences.Filter` | src/cluster/manager.rs:310-326 | the loop keeps exactly the accepted entries, in order, and ends with the table the whole batch gives |
| `SyncIntake.AcceptedAppend` | src/cluster/manager.rs:310-326 | batch boundaries do not matter: the filter works on the stream of deliveries |
| `SyncIntake.MaximaAreMaxima` | src/cluster/state.rs:48-57 | the table holds the largest sequence delivered per foreign origin |
| `SyncIntake.AcceptedAreRunningMaxima` | src/cluster/manager.rs:310-326 | a new node accepts exactly the strict running maxima of each foreign origin |
| `SyncIntake.AcceptedAtMostOnce` | src/cluster/manager.rs:310-326 | under any order, loss and duplication nothing of its own is accepted and accepted sequences of an origin strictly increase |
| `SyncIntake.NothingMissedIffInOrder` | src/cluster/manager.rs:310-326 | the first delivery of every positive foreign sequence is accepted if and only if first deliveries of each origin arrive in increasing order; those entries are then among the accepted ones |
| `SyncIntake.LateEntryIsDropped` | src/cluster/manager.rs:310-326 | of two entries of one foreign origin delivered in the wrong order only the first is accepted |
| `SyncApply.UpsertBatch` | src/storage/collection/crud.rs:418-491 | every document ends merged from what was stored before the batch and its last upsert in the batch |
| `SyncApply.RouteDocs` | src/cluster/manager.rs:381-409 | keeps the documents whose shard this node replicates, in order |
| `SyncApply.GroupEntries` | src/cluster/manager.rs:332-357 | upserts are split by collection in order, deletes are kept apart in order |
| `SyncApply.ApplyGroups` | src/cluster/manager.rs:378-420 | in any group order every collection gets its own group and no other |
| `SyncApply.ApplyDeletes` | src/cluster/manager.rs:427-432 | deletes run one by one and missing documents are ignored |
| `SyncApply.Replica.HandleSyncMessage` | src/cluster/manager.rs:298-433 | the whole intake: filter, regroup, upsert, delete |
| `SyncApply.OneEntryBatch` | src/cluster/manager.rs:298-433 | the reference: applying one entry is what the intake does with a batch of just that entry |
| `SyncApply.ApplyEachPerDocument` | src/cluster/manager.rs:298-433 | entries taken in as batches of one, seen by one document |
| `SyncApply.GroupedPerDocument` | src/cluster/manager.rs:332-433 | the regrouped batch, seen by one document |
| `SyncApply.RegroupedIffSafe` | src/cluster/manager.rs:332-433 | one document ends the same either way if and only if its deletes come last and its last upsert omits no field that an earlier one changed |
| `SyncApply.GroupedEqualsOneByOneIffSafe` | src/cluster/manager.rs:332-433 | for every store, batch and routing the regrouped batch leaves the same store as applying entries one by one if and only if every document's operations are safe in that sense |
| `SyncApply.CoveringBatchPreserved` | src/cluster/manager.rs:332-433 | batches of whole-document upserts with deletes last are never changed by regrouping |
| `SyncApply.ReinsertIsLost` | src/cluster/manager.rs:427-432 | deleting and re-inserting a document in one batch loses it |
| `SyncApply.FirstPartialUpdateIsLost` | src/storage/collection/crud.rs:418-491 | two partial updates of one new document in one batch lose the field of the first |
| `LexerSpec.NextTokenProgress` | src/sdbql/lexer.rs:466-673 | every token but the end of input consumes at least one character |
| `Lexer.Cursor.constructor` | src/sdbql/lexer.rs:150-159 | a new lexer stands at the start of the input |
| `Lexer.Cursor.Advance` | src/sdbql/lexer.rs:161-165 | moves one character on and keeps the current character in step with the position |
| `Lexer.Cursor.PeekChar` | src/sdbql/lexer.rs:167-169 | looks one character ahead without moving |
| `Lexer.Cursor.SkipBlanks` | src/sdbql/lexer.rs:171-179 | stops at the first character that is not white space |
| `Lexer.Cursor.ScanNumber` | src/sdbql/lexer.rs:181-202 | collects the longest number; a point before another point ends it |
| `Lexer.Cursor.ReadNumber` | src/sdbql/lexer.rs:181-216 | the number token or error of the text scanned |
| `Lexer.Cursor.ReadString` | src/sdbql/lexer.rs:218-249 | the unescaped text up to the closing quote, or the unterminated error |
| `Lexer.Cursor.ReadUntilClosingBrace` | src/sdbql/lexer.rs:313-337 | the text up to the matching brace, nested braces included, or the error |
| `Lexer.Cursor.ReadTemplateString` | src/sdbql/lexer.rs:252-311 | the list of literal and expression parts up to the closing quote, or the error |
| `Lexer.Cursor.ReadQuotedIdentifier` | src/sdbql/lexer.rs:339-356 | the text between back quotes, or the error |
| `Lexer.Cursor.ReadWord` | src/sdbql/lexer.rs:358-368 | the longest run of word characters |
| `Lexer.Cursor.ReadBindVar` | src/sdbql/lexer.rs:443-464 | the bind variable name, or the error when it is empty |
| `Lexer.Cursor.ReadOperator` | src/sdbql/lexer.rs:496-673 | the longest operator at the position, or the unexpected-character error |
| `Lexer.Cursor.NextTokenInPlace` | src/sdbql/lexer.rs:466-673 | token, error and rest of input of the whole dispatch, comments skipped by recursion |
| `Lexer.Cursor.TokenizeInPlace` | src/sdbql/lexer.rs:675-688 | the loop returns exactly the token list, or the first error |
| `LexerComposition.TokenizeEndsInEof` | src/sdbql/lexer.rs:675-688 | a successful token list has exactly one end-of-input, at its end |
| `LexerComposition.NextTokenAppend` | src/sdbql/lexer.rs:466-673 | a newline and more text after a text that lexes do not change its next token |
| `LexerComposition.TokenizeJoin` | src/sdbql/lexer.rs:466-688 | if a lexes, then a, newline, b lexes for every b to the tokens of a without its end followed by whatever b lexes to, errors included |
| `LexerTemplates.StringTokenRoundTrip` | src/sdbql/lexer.rs:218-249 | every text, escaped and quoted, lexes back to that text |
| `LexerTemplates.TemplateRoundTrip` | src/sdbql/lexer.rs:252-337 | every part list in normal form, printed with escapes, lexes back to exactly that list |
| `LexerTemplates.TemplateTokensAreNormal` | src/sdbql/lexer.rs:252-337 | every template token the lexer returns has that normal form: no empty or adjacent literals, balanced expressions |
| `LexerMeaning.StringBodySound` | src/sdbql/lexer.rs:218-249 | what a string literal is read as is what its characters up to the closing quote mean, escape by escape |
| `LexerMeaning.StringBodyComplete` | src/sdbql/lexer.rs:218-249 | every body with that meaning, closed by its quote, is read so |
| `LexerMeaning.TemplateBodySound` | src/sdbql/lexer.rs:252-337 | the parts read from a template are, character by character and expression by expression, what its body means |
| `LexerMeaning.TemplateBodyComplete` | src/sdbql/lexer.rs:252-337 | every body that means a list of parts in normal form is read as that list |
| `LexerReading.KeywordsAreReserved` | src/sdbql/lexer.rs:370-440 | the words recognised as keywords are exactly the reserved ones |
| `LexerReading.TokenWritten` | src/sdbql/lexer.rs:181-673 | the token at a position is written there in one of its forms, and the form could not have gone on |
| `LexerReading.WrittenReads` | src/sdbql/lexer.rs:181-673 | every written form of a token that cannot go on is read as that token, leaving what follows |
| `LexerTexts.EofIff` | src/sdbql/lexer.rs:466-673 | the end of input is reported if and only if only white space and comments are left |
| `LexerTexts.NextTokenIff` | src/sdbql/lexer.rs:466-673 | for every text, the next token is t with a given rest if and only if the text is white space and comments, a written form of t that could not have gone on, and that rest: no character is lost |
| `LexerTexts.TokenizeIff` | src/sdbql/lexer.rs:675-688 | a text tokenizes to a list if and only if it is those tokens, written out one after the other with gaps between, and a blank end |
| `LexerTexts.ErrorsMean` | src/sdbql/lexer.rs:181-673 | every error names what is wrong with the text behind the gap |
| `LexerRoundTrip.TokenRoundTrip` | src/sdbql/lexer.rs:181-673 | the spelling of every keyword, operator, number, identifier, bind variable and string lexes to exactly that token |
| `LexerRoundTrip.TokensRoundTrip` | src/sdbql/lexer.rs:466-688 | every list of such tokens, one per line, tokenizes to that list and the end of input |
| `LexerRoundTrip.TokensPrint` | src/sdbql/lexer.rs:466-688 | every text that lexes gives only such tokens before its end of input |
| `LexerRoundTrip.ReadPrintRead` | src/sdbql/lexer.rs:466-688 | printing the tokens of any text that lexes and reading them again changes nothing |
| `JobQueue.JobsCollection.Update` | src/storage/collection/crud.rs:147-245 | merges into the stored document under a new revision; fails and changes nothing without one |
| `JobQueue.JobsCollection.UpdateWithRev` | src/storage/collection/crud.rs:248-270 | writes if and only if the stored revision is the expected one |
| `JobQueue.JobsCollection.Claim` | src/queue/jobs.rs:68-80 | a task is spawned exactly when the claim wins, with the running copy that was written |
| `JobQueue.JobsCollection.WriteBack` | src/queue/jobs.rs:87-139 | the store after success, after a failure that is retried and after the last failure |
| `JobQueue.ProductFitsIff` | src/queue/jobs.rs:123-123 | ten times two to the r fits 64 bits if and only if r is at most 60 |
| `JobQueue.DelayExactIff` | src/queue/jobs.rs:120-125 | the delay computed in wrapping arithmetic is min(10 * 2^r, one day) if and only if r is at most 62, and zero beyond |
| `JobQueue.DelaysGrow` | src/queue/jobs.rs:123-125 | up to there delays never shrink |
| `JobQueue.StepKeeps` | src/queue/jobs.rs:55-140 | every step of every worker and task keeps the queue invariant |
| `JobQueue.AtMostOneExecutor` | src/queue/jobs.rs:55-140 | over every interleaving of any number of workers, inserts and deletions: a job never has two executors, and a stored job has one if and only if its stored status is running |
| `JobQueue.AttemptsBounded` | src/queue/jobs.rs:106-130 | a job is attempted at most max(1, limit) times, and exactly that often when it ends up failed |
| `JobQueue.FieldsTellThePast` | src/queue/jobs.rs:97-130 | attempts made, start time, end time and error of a stored job determine each other in every reachable state |
| `JobQueue.RetryKeepsStart` | src/queue/jobs.rs:106-130 | a run in which a failed job is pending again with the start time of its failed attempt |
| `JobQueue.HeldWasSelected` | src/queue/jobs.rs:31-66 | what a worker is about to claim was, when read, a due job that no other due job outranked |
| `JobQueue.LimitIsMaxRetriesIff` | src/queue/jobs.rs:120-120 | that bound is the signed limit if and only if the limit is not negative, and 2^32 more than it otherwise |
| `JobQueue.OverIsFinal` | src/queue/jobs.rs:55-140 | once completed or failed, a stored job never changes and is never attempted again |
| `JobQueue.NeverEarly` | src/queue/jobs.rs:32-35 | with a clock that does not go back, no attempt is claimed before the job was due |
| `JobQueue.RetriesWait` | src/queue/jobs.rs:106-130 | every attempt after a retried failure waits out its delay; the delay is the intended one for limits up to 63 and free of overflow up to 61 |
| `JobHistory.JobsTellHistory` | src/queue/jobs.rs:55-140 | in every reachable state every stored job has the priority and limit it was enqueued with, and its due time, retry count, time stamps and error are those of the last retry, claim, failure or end of that job |
| `JobHistory.DueExactlyThen` | src/queue/jobs.rs:106-130 | a waiting job is due exactly from its enqueued time on, or once the backoff of its last retry has passed since that failure (for limits up to 63; the computed delay otherwise) |
| `JobHistory.UpdatesKeepStamps` | src/storage/collection/crud.rs:147-245 | however often a job is updated, an absent time stamp never erases one: each is the last that was written, all else is as written last |
| `Cron.CronCollection.UpdateWithRev` | src/storage/collection/crud.rs:248-270 | writes if and only if the stored revision is the expected one |
| `Cron.CronCollection.Visit` | src/queue/cron.rs:37-143 | one document: first run set but never fired in the same pass, due run fired once with the next run stored, anything else untouched |
| `Cron.CronCollection.CheckCronJobs` | src/queue/cron.rs:36-144 | a whole pass: every document ends as its visit says, and the jobs inserted are those of the due documents in scan order |
| `Cron.SpawnedIsEnqueued` | src/queue/cron.rs:96-112 | the spawned job is one the job queue accepts, due at once |
| `Cron.OneJobPerFiring` | src/queue/cron.rs:88-136 | whatever the clock does, two inserted jobs never stem from the same firing |
| `CronPass.PassIsARun` | src/queue/cron.rs:36-144 | a whole undisturbed pass over any scan is a run of the interleaved steps: it leaves every document and inserts the jobs as `CheckCronJobs` promises |
| `CronHistory.JobsCarryTheirDocument` | src/queue/cron.rs:88-136 | in every run every inserted job stems from one won claim of its document, with the priority and limit the document had at that moment, and is due at the time the claim recorded as its last run |
| `CronFirings.StepKeeps` | src/queue/cron.rs:36-143 | every step of every worker, edit and clock change keeps each stored next run equal to the one written last, and the writes a chain: a firing takes exactly the run that the last write of its document left |
| `CronFirings.TimelyFiringsRise` | src/queue/cron.rs:36-143 | over every interleaving, with any clock changes and edits: if the next runs that came to be fired were planned at clock readings not before the runs fired until then, the run times each job fires at strictly increase |
| `CronFirings.FiringsRiseIffTimely` | src/queue/cron.rs:36-143 | for schedules that answer with the next occurrence, while no edit touches a schedule, run times strictly increase if and only if that planning condition holds |
| `CronFirings.FiringsRise` | src/queue/cron.rs:36-143 | in particular with a clock that does not go back |
| `CronFirings.ClockSetBackFiresTwice` | src/queue/cron.rs:64-81 | a run, with a schedule that answers with the next occurrence, in which setting the clock back makes the same scheduled time fire twice |
| `Channels.ChannelManager.constructor` | src/scripting/channel_manager.rs:158-164 | starts empty with zero counters |
| `Channels.ChannelManager.RegisterConnection` | src/scripting/channel_manager.rs:167-189 | adds the connection with nothing joined and counts it |
| `Channels.ChannelManager.Subscribe` | src/scripting/channel_manager.rs:211-242 | counts the subscriber, creating the channel if needed, and lists it with a known connection |
| `Channels.ChannelManager.UnsubscribeInternal` | src/scripting/channel_manager.rs:253-264 | drops one subscriber, never below zero, and removes an empty channel |
| `Channels.ChannelManager.Unsubscribe` | src/scripting/channel_manager.rs:245-251 | the same, and unlists it |
| `Channels.ChannelManager.PresenceJoin` | src/scripting/channel_manager.rs:298-352 | adds the presence, creating the channel if needed, and lists it with a known connection |
| `Channels.ChannelManager.PresenceLeaveInternal` | src/scripting/channel_manager.rs:363-386 | removes the presence if there was one, and removes an empty channel |
| `Channels.ChannelManager.PresenceLeave` | src/scripting/channel_manager.rs:355-361 | the same, and unlists it |
| `Channels.ChannelManager.UnregisterConnection` | src/scripting/channel_manager.rs:192-208 | both loops, in any order, leave what cleaning all channels at once leaves |
| `Channels.RegisterMirrors` | src/scripting/channel_manager.rs:167-189 | registering keeps counts and presence equal to what connections list |
| `Channels.SubscribeMirrorsIff` | src/scripting/channel_manager.rs:211-242 | subscribing keeps them equal if and only if the connection is registered and not subscribed yet |
| `Channels.UnsubscribeMirrorsIff` | src/scripting/channel_manager.rs:245-264 | unsubscribing keeps them equal if and only if the connection is subscribed or the channel has no subscribers |
| `Channels.JoinMirrorsIff` | src/scripting/channel_manager.rs:298-352 | joining presence keeps them equal if and only if the connection is registered |
| `Channels.LeaveMirrors` | src/scripting/channel_manager.rs:355-386 | leaving presence always keeps them equal |
| `Channels.UnregisterMirrors` | src/scripting/channel_manager.rs:192-208 | unregistering keeps them equal and removes every trace of the connection |
| `Channels.SecondSubscribeMiscounts` | src/scripting/channel_manager.rs:211-242 | subscribing a connection twice breaks the count |
| `Channels.StrayUnsubscribeMiscounts` | src/scripting/channel_manager.rs:245-264 | unsubscribing a connection that is not subscribed breaks the count of another |
| `Channels.EveryRun` | src/scripting/channel_manager.rs:167-386 | after any calls the counters are the map sizes and no stored channel is empty; after polite calls counts and presence equal what connections list |
| `Channels.HalvesKeepChannels` | src/scripting/channel_manager.rs:211-386 | the channel counter and the absence of empty channels survive every interleaving of the pieces that run under one lock |
| `Channels.OverlapLeaksSubscriber` | src/scripting/channel_manager.rs:211-242 | a connection unregistered between the halves of its own subscribe call always leaves one subscriber too many |
| `ChannelHalves.StepBalanced` | src/scripting/channel_manager.rs:192-386 | every half of every polite call keeps each channel balanced: its count and presence are those of the connections that list it, corrected by the calls under way |
| `ChannelHalves.CountAddsUp` | src/scripting/channel_manager.rs:192-386 | in every state of every interleaving of polite calls a count is the number of connections that list the channel plus counted but unlisted plus disconnected but undropped minus dropped but still listed ones |
| `ChannelHalves.MirroredWhenFinished` | src/scripting/channel_manager.rs:192-386 | whenever all calls have finished, counts and presence equal what connections list |
| `ChannelPresence.ShownStep` | src/scripting/channel_manager.rs:192-386 | what every call does to one entry of one channel; entries of other connections stay |
| `ChannelPresence.PresenceIsLastJoin` | src/scripting/channel_manager.rs:192-386 | after any calls a channel shows a connection as a user if and only if its last join there was as that user and neither a leave nor an unregistration undid it |
| `ChannelPresence.PresenceInterleaved` | src/scripting/channel_manager.rs:192-386 | the same in every state of every interleaving of the halves of calls |
| `Restore.Next` | src/bin/solidb-restore.rs:237-342 | one turn of the reading loop consumes input, and an item it yields carries as many bytes as its header announces |
| `Restore.NextItem` | src/bin/solidb-restore.rs:237-299 | the bytes of an item are read back as that item, whatever its data contains |
| `Restore.ParseLines` | src/bin/solidb-restore.rs:237-342 | reading a payload gives exactly the items it was made from |
| `RestoreReading.ParseSegments` | src/bin/solidb-restore.rs:237-342 | in any mixture of blank lines, lines that do not parse, documents and binary items before anything, exactly the items are read, in order, and one failure is counted per bad line |
| `RestoreReading.ParseEnding` | src/bin/solidb-restore.rs:237-342 | a last line without newline counts as if it had one, and binary data cut short ends the reading with an error |
| `RestoreReading.EveryStream` | src/bin/solidb-restore.rs:237-342 | every stream is such a mixture with such an ending |
| `RestoreReading.WrittenItem` | src/bin/solidb-restore.rs:598-603 | an item as the program writes it is such a segment |
| `Restore.EveryItemOnce` | src/bin/solidb-restore.rs:346-360 | between items the pending batch has one target and has not reached either limit; at the end the batches hold every item once, in order, one target each, and none was full before its last item |
| `Restore.EachTargetInOrder` | src/bin/solidb-restore.rs:425-471 | every target receives its own items, each once and in stream order |
| `Restore.PayloadReadsBack` | src/bin/solidb-restore.rs:598-603 | reading the payload of any batch of any restored stream gives back exactly the items put in it |
| `Restore.NoEarlyFlush` | src/bin/solidb-restore.rs:530-573 | two batches in a row for one target mean the first had reached the count or the size limit |
| `Restore.TargetIsChosen` | src/bin/solidb-restore.rs:491-504 | an item goes to the database and collection it names, the command line filling in for names it lacks, and is rejected if one is missing in both |
| `Restore.CreatedIffNoClash` | src/bin/solidb-restore.rs:506-528 | every batch goes to a collection created for it if and only if no two items of the stream have different targets with the same key |
| `Restore.CreatedBeforeSent` | src/bin/solidb-restore.rs:506-528 | in particular with slash-free database names |
| `Restore.SlashSkipsCreation` | src/bin/solidb-restore.rs:507-508 | two targets whose names contain slashes share one key, and the second is never created |
| `RestoreLoop.ReadLine` | src/bin/solidb-restore.rs:238-248 | the line up to the next newline and the position after it |
| `RestoreLoop.ReadTurn` | src/bin/solidb-restore.rs:238-334 | line, raw data and dropped newline of one turn, or the short-read error |
| `RestoreLoop.Restorer.BuildPayload` | src/bin/solidb-restore.rs:598-603 | every piece followed by a newline |
| `RestoreLoop.Restorer.FlushBatch` | src/bin/solidb-restore.rs:579-625 | sends the buffered pieces as one payload and empties the buffer; nothing for an empty buffer |
| `RestoreLoop.Restorer.EnsureCollection` | src/bin/solidb-restore.rs:506-528 | creates a collection once per key |
| `RestoreLoop.Restorer.CheckTarget` | src/bin/solidb-restore.rs:530-551 | sends the batch of another target first and then takes up the new one |
| `RestoreLoop.Restorer.Push` | src/bin/solidb-restore.rs:447-454 | buffers the pieces of an item and their size, header before data |
| `RestoreLoop.Restorer.Process` | src/bin/solidb-restore.rs:477-576 | the item is added as the batching function says, or rejected without a target |
| `RestoreLoop.Restorer.FlushRemaining` | src/bin/solidb-restore.rs:345-360 | sends what is left |
| `RestoreLoop.Restorer.RestoreStream` | src/bin/solidb-restore.rs:234-360 | the whole loop: all items batched and the last batch sent, or a stop at the offending item with the buffer unsent |
| `Conversion.BuildArrayTable` | src/scripting/conversion.rs:19-25 | assigning elements from one upwards gives the table without the nil ones |
| `Conversion.BuildObjectTable` | src/scripting/conversion.rs:26-32 | assigning fields in any order gives the table of those that are not nil |
| `Conversion.DetectArray` | src/scripting/conversion.rs:124-141 | a table counts as an array if and only if all keys are positive integers, and then the largest is found, in any scan order |
| `Conversion.ArrayBack` | src/scripting/conversion.rs:143-149 | an array comes back cut after its last value that is not nil, or as an empty object |
| `Conversion.ObjectBack` | src/scripting/conversion.rs:150-157 | an object comes back with exactly its fields that are not nil |
| `Conversion.RoundTripIff` | src/scripting/conversion.rs:5-161 | a JSON value survives the way to Lua and back if and only if at every depth integers fit 64 signed bits, no field is null, no array is empty and none ends in null |
| `Conversion.RoundTripIs` | src/scripting/conversion.rs:5-161 | what every JSON value comes back as, at every depth: large integers as floats, arrays without trailing nulls, empty or all-null arrays as empty objects, objects without null fields |
| `Conversion.TableBack` | src/scripting/conversion.rs:124-161 | any table with only positive integer keys becomes an array up to the largest, gaps being null; any other an object with exactly the fields its keys go to |
| `Conversion.NamesClash` | src/scripting/conversion.rs:150-157 | two keys of a table go to the same field only if one is an integer and the other its text |
| `Conversion.SecondTripChangesNothing` | src/scripting/conversion.rs:5-161 | the result of a round trip survives every further one |
| `Conversion.NullsAndEmptyArraysAreLost` | src/scripting/conversion.rs:19-161 | a null field disappears and an empty array comes back as an empty object |
| `Reputation.AddUp` | src/ai/marketplace.rs:93-94 | adding up a map in any order gives its sum |
| `Reputation.VarianceOfRates` | src/ai/marketplace.rs:114-117 | rates between zero and one have a variance of at most a quarter |
| `Reputation.ConsistencyRange` | src/ai/marketplace.rs:109-121 | the consistency factor lies between one half and one, so limiting the deviation to one never has an effect |
| `RateSpread.MeanIsCentre` | src/ai/marketplace.rs:114-117 | the mean is the one centre from which the squared distances of the rates add up to the least |
| `RateSpread.VarianceZeroIff` | src/ai/marketplace.rs:114-117 | the variance is zero if and only if all rates are equal |
| `RateSpread.ConsistencyOneIff` | src/ai/marketplace.rs:109-121 | the consistency factor is one if and only if all rates are equal |
| `Reputation.AgentReputation.UpdateStats` | src/ai/marketplace.rs:125-142 | counts, rate and average time of one kind of task after one more task |
| `Reputation.AgentReputation.RecordOutcome` | src/ai/marketplace.rs:231-242 | the window slides by one outcome and its rate is recounted |
| `Reputation.AgentReputation.CalculateBaseScore` | src/ai/marketplace.rs:92-101 | completed over all, or the default without tasks |
| `Reputation.AgentReputation.CalculateConsistencyFactor` | src/ai/marketplace.rs:109-121 | one minus the limited standard deviation of the rates |
| `Reputation.AgentReputation.CalculateTrustScore` | src/ai/marketplace.rs:79-89 | the clamped weighted sum |
| `Reputation.AgentReputation.TakeSnapshot` | src/ai/marketplace.rs:150-167 | a snapshot after every tenth task, the oldest dropped beyond a hundred |
| `Reputation.AgentReputation.RecordTask` | src/ai/marketplace.rs:124-168 | the whole record after one more task |
| `Reputation.ScoreUnclamped` | src/ai/marketplace.rs:79-89 | the score is the weighted sum itself and lies between a tenth and one: the clamp never has an effect |
| `Reputation.RecordMeansHistory` | src/ai/marketplace.rs:79-168 | after any history: per-kind counts and rates agree with it, the window is its last at most twenty outcomes, the score is the unclamped sum, and the snapshots are the scores the agent had after the last hundred multiples of ten tasks |
| `Reputation.EntriesMeanHistory` | src/ai/marketplace.rs:124-142 | each kind's counts, rate and average time are those of its tasks in the whole history |
| `CursorStore.CursorTable.Store` | src/server/cursor_store.rs:31-43 | stores the results at position zero |
| `CursorStore.CursorTable.StoreAndGetFirstBatch` | src/server/cursor_store.rs:48-75 | rows, flag and store are those of storing and then fetching; a cursor remains exactly when rows are left |
| `CursorStore.CursorTable.GetNextBatch` | src/server/cursor_store.rs:78-112 | the next rows and whether more follow; an expired or exhausted cursor is removed |
| `CursorStore.CursorTable.Delete` | src/server/cursor_store.rs:115-117 | removes the cursor and says whether it existed |
| `CursorStore.CursorTable.CleanUp` | src/server/cursor_store.rs:120-129 | one sweep keeps exactly the cursors that have not expired |
| `CursorStore.FirstBatchRefines` | src/server/cursor_store.rs:48-75 | storing and fetching at once equals storing, then fetching |
| `CursorStore.BatchesAreTheResults` | src/server/cursor_store.rs:31-117 | among any operations on other cursors, n fetches hand out the first n times batch-size rows; once that is all, the rows handed out are exactly the results and the cursor is gone |
| `CursorStore.NextBatchSays` | src/server/cursor_store.rs:78-112 | after any operations that leave a cursor alone and n fetches of it, the next one gives the following rows and says whether any are left; nothing once it has expired or all rows were handed out |
| `CursorStore.FetchStallsIff` | src/server/cursor_store.rs:78-112 | a fetch from unread results changes nothing if and only if the batch size is zero |
| `CursorStore.ZeroBatchStalls` | src/server/cursor_store.rs:31-112 | any results stored with batch size zero give empty batches with more to come, as long as the cursor lives |

## Left out

- The storage engine, query parser and executor, transactions, sharding, authentication, transports,
  the AI pipeline apart from reputation, FUSE, REPL and clients: outside the modelled core.
- When and why a status changes: in `JoinProtocol` any node may mark any member, itself included, at
  any time. `Leave` messages are left out there: its theorems are about runs without departures and
  without lost messages.
- Sync entries on whole collections and databases, truncation and columnar tables: only document
  inserts, updates and deletes on existing collections are modelled; documents are flat maps of
  fields, so fields starting with an underscore and non-object documents are not distinguished.
- Shard routing: an arbitrary predicate of collection and key.
- The body of the job query and of script execution: the query's answer is any due job that no other
  due job outranks, and an execution is any outcome.
- Membership.ClusterState.AddMember: the time of the last heartbeat and the node statistics are not
  modelled, because no modelled operation reads them.
- Membership.ClusterState.UpdateHeartbeat: the same two fields are not modelled.
- Membership.ClusterManager.HandleMessage: replication messages are handled by `SyncApply.Replica`.
- JoinMesh.GuidedJoinsMesh: no converse; whether joins through a node that does not know the founder
  yet end in a mesh depends on the order in which messages happen to arrive.
- CronFirings.TimelyFiringsRise: no converse across edits that change a schedule, because an edited
  schedule may answer with a later time however early it is asked.
- ChannelHalves.MirroredWhenFinished: calls that are not polite are not covered under interleaving.
- RestoreLoop.Restorer.FlushBatch: a transport error, which ends the program, is not modelled.
- JobQueue.JobsCollection.UpdateWithRev: the check and the write are one atomic step and the new
  revision was never used before; the source does them under no common lock.
- Cron.CronCollection.UpdateWithRev: the same assumption; edits of cron jobs that bypass the revision
  check (the binary driver's update handler) are not modelled.
- JobQueue.JobsCollection.WriteBack: a build with overflow checks panics in the delay computation
  where the model wraps; crashes of tasks and workers are not modelled.
- Calendar arithmetic of cron expressions: a schedule is any function that answers with later times.
- Broadcast of channel messages and presence events: only membership and counters are modelled.
- Restore.NextItem: JSON printing and parsing are functions that round trip, stay on one line and are
  never blank; the import server's answers and the totals derived from them are not modelled.
- CSV, SQL and JSON-array restores, and creation of databases: only the streaming mode is modelled.
- Conversion.TableBack: tables with keys other than integers and strings are not modelled, and where
  two keys print alike an arbitrary one wins; such tables never come from JSON.
- Text encodings: strings are sequences of characters and character classes are parameters of the
  lexer; the round trips and the readings of texts assume the usual classes for ASCII, and that neither
  `$` nor a quote is a letter.
- Lexer.Cursor.ReadNumber: a float is kept as its digit text instead of a rounded value.
- Reputation.AgentReputation.CalculateConsistencyFactor: the square root is exact and sums are free of
  rounding.
- CursorStore.CursorTable.GetNextBatch: the source releases the entry before removing it; that gap
  and concurrent fetches of the same cursor are not modelled.
- `sdbql-core/src/lexer.rs` repeats the modelled lexer and is not modelled a second time.
