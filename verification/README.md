# git.agentic: a verified model of its store, segment log and rollback

git.agentic versions the state of an agent: prompts, tools, a model name and the
memory tables of a Postgres database. Objects live in a content-addressed store;
memory is kept as a log of sealed segments; a commit names everything by hash; a
rollback brings schema, tables and prompts back and records the result as a new
commit. This project models those parts in Dafny and proves what they are for.

Code that changes state step by step is modelled as classes and methods with loops
(`SegmentManifest`, `Database`, `TableHead`, `StreamerTask`, `Repo`, `InMemoryAdapter`,
`Directory`, `Daemon`, `GcsStore`, `RateLimiter`, `ConnGate`, `ChangeLog`), each
proved equal to a specification function or against a stated property; the
theorems are then lemmas about those functions. The daemon's handlers and the
restore window run concurrently, so they are modelled as state machines whose
steps any number of participants may interleave.

## Files

| file | part |
|---|---|
| Prelude.dfy, Ids.dfy, Hex.dfy, Json.dfy, Objects.dfy | shared types, string order, addresses and JSON as text, the object graph |
| Replay.dfy, Manifest.dfy, SealOrder.dfy, Restore.dfy | batched replay, manifests, when their order is harmless, restore |
| Segments.dfy, Bootstrap.dfy, Streamer.dfy, Live.dfy | segments, cutting a table, the streamer, the whole round trip |
| Drain.dfy, Quiesce.dfy, Delivery.dfy | draining the change log, the restore window, from change-log rows to the restored table |
| Staging.dfy, Records.dfy, Repository.dfy, Streamed.dfy | crash-safe staging, what a stored commit says, commits, the log, streamer and repository on one object store |
| Memory.dfy, Writeback.dfy, Diff.dfy, Rollback.dfy, Comeback.dfy | the memory adapter, the prompts directory, diffs, rollback, and what a commit gets back |
| Shutdown.dfy, Limits.dfy, Cache.dfy | handler interleavings, admission control, the read-through cache |

## Hypotheses

Each is a precondition of the lemma that needs it, or part of the data model.

- Content addresses are injective on objects of every kind and form together
  (`Objects.Injective`, `Segments.Injective`, `Cache.Collisionless`). The code hashes
  payloads without a kind tag (crates/agentic-core/src/object.rs:40-44, 62-66,
  140-143). `Objects.SharedBytesShadow` shows what happens otherwise. In the cache,
  where raw bytes and typed objects live side by side, injectivity is asked of each
  form alone; that no put of the other form shares an address is a precondition of
  `Cache.PutRawThenRead` and `Cache.PutTypedThenRead`, and `Cache.TypedPutShadowsRaw`
  shows why.
- Two key values name the same row exactly when they are equal JSON values;
  `pk_signature` is a canonical text of the value.
- Change-log ids are positive and not reused. That rows become visible in id order,
  and that one drainer runs at a time, is assumed only where a lemma says so
  (`Drain.InOrder`); `Drain.NothingLostIff` gives the exact condition.
- Compression and the object encoding are inverse pairs (`Cache.Lossless`).
- Tokens, rates and clock readings are real numbers, and the readings one UID meets do
  not run backwards: the daemon reads a monotone clock on one thread.
  `Limits.BackwardClockBreaksBound` shows what `Limits.WindowBound` would lose without.
- A crash, a full disk or a lost connection may strike before any durable write to the
  object store, the refs, the cache, the streamer or the change log; the `budget`,
  `puts`, `sends`, `deletes` and luck parameters say where it does, and the theorems
  hold for all of them.

## Where the code does not do what it says

Each is stated as a lemma with a concrete case, next to the exact condition.

- Restore says it applies envelopes in seal order (crates/agentic-memory/src/restore.rs:89-91),
  but the manifest is sorted by `(table, pk_lo)` with the newest ref first on ties.
  `Restore.UpdateIsLost` restores an old row; `SealOrder.PushedManifestAgreesIff` says
  for which segments the two orders agree whatever the rows are.
- `push` sorts on two key parts, decoding demands strict order on three. A manifest
  `take_snapshot` returns may not decode (`Manifest.GrowingTieDoesNotDecode`);
  `Manifest.PushedDecodesIff` says when it does.
- The bootstrap comment promises the byte counter seals early at worst, never late
  (crates/agentic-memory/src/postgres.rs:295-299). `Bootstrap.LateBootstrap` bootstraps
  101 rows whose first 100 had reached the target into one segment.
  `Bootstrap.LateSealsIff` is exact: a segment had reached the target before its last
  row exactly if, after at least 100 rows, its size stood at most the digits of the row
  count less three above the target. The same comment admits a bounded drift from those
  digits a few lines earlier (crates/agentic-memory/src/postgres.rs:290-294); it is
  "never late" that fails.
- The resolver's comment promises never to misroute silently
  (crates/agentic-memory/src/triggers.rs:677-683), but the fallback strips the schema:
  with only `a.t` configured, an event of `b.t`, whose trigger outlives the
  configuration, joins the segments of `a.t`, under the strict fence too
  (`Drain.OtherSchemaIsTakenIn`). `Drain.CrossesSchemasIff`: this happens to a qualified
  name exactly if it is not configured, one entry owns its bare name, and that entry is
  qualified.
- `DELETE id <= max_id` drops a row that became visible late (`Drain.LateRowIsLost`);
  `Drain.NothingLostIff` is the exact condition.
- A prompt that is the `.tmp` sibling of a later one is lost by a directory restore
  that reports success (`Writeback.TmpPromptIsLost`, which also shows that this restore
  meets the success condition of `Writeback.Directory.RestorePrompts`);
  `Writeback.MirrorsIff` is the exact condition.

One more edge is out of the daemon's own reach. A rollback reverses migrations, not
the version string: if the in-memory adapter's newest migration is the target but its
live version was set to something else, the memory phase can succeed and leave the
schema where it was (`Rollback.SchemaLeftBehind`). Getting there takes the adapter's
`set_schema_version`, a helper for tests (`Memory.StrandByHand` makes the calls), and a
target commit with a schema version but no manifest, which only a direct call of
`stage_and_commit` makes: the daemon's commits store both or neither
(`Repository.EveryCommitPaired`). `Rollback.MemoryReachesTarget` gives the exact condition on the
state before the call, and says that an adapter whose version only ever moved with its
migrations always reaches the target.

## Model

| member | source | states |
|---|---|---|
| `Replay.DecodeRows` | crates/agentic-memory/src/restore.rs:205-234 | the whole segment is decoded before any SQL: every envelope's entries in order, or failure if a single one is malformed |
| `Replay.InterleavedDecoding` | crates/agentic-memory/src/restore.rs:205-234 | decoding everything first gives the same table, and fails in the same cases, as decoding and applying row by row |
| `Replay.RunEnd` | crates/agentic-memory/src/restore.rs:250-326 | the run found is one mode, one column set, without a repeated key, within the cap for its shape, and never cut short: it ends at the cap, the last entry or one that cannot join |
| `Replay.Cap` | crates/agentic-memory/src/restore.rs:260-271 | the cap is between 1 and 1000 rows and keeps any batch of two or more upserts within 60000 parameters |
| `Replay.CapIs` | crates/agentic-memory/src/restore.rs:260-271 | the limit is 1000 for deletes, and for upserts as many rows, from 1 to 1000, as fit into 60000 parameters |
| `Replay.UpsertFailsIff` | crates/agentic-memory/src/restore.rs:237-249 | an upsert statement fails exactly over 65535 parameters, on a missing or null key, or when two rows hit one key |
| `Replay.UpsertBatchReplays` | crates/agentic-memory/src/restore.rs:379-459 | a multi-row upsert without a repeated key equals upserting its rows one at a time |
| `Replay.DeleteBatchReplays` | crates/agentic-memory/src/restore.rs:461-507 | a multi-key delete equals deleting its rows one at a time, repeated keys included |
| `Replay.BatchUpsert` | crates/agentic-memory/src/restore.rs:379-459 | the statement succeeds exactly when the one-row loop over the batch does, with the same table, and is a safe statement carrying exactly these rows |
| `Replay.BatchDelete` | crates/agentic-memory/src/restore.rs:461-507 | the same for deletes; a missing or null key fails both |
| `Replay.RefusedFails` | crates/agentic-memory/src/restore.rs:379-507 | row-by-row replay succeeds exactly when every entry is acceptable by itself, whatever the table holds |
| `Replay.ApplySegmentRows` | crates/agentic-memory/src/restore.rs:194-338 | batched replay refines the one-row loop for every table and envelope list; the emitted statements, run in order, give that table, concatenate to the decoded entries, and are each within the row and parameter limits with no key twice |
| `Replay.OneUpsert` | crates/agentic-memory/src/restore.rs:379-459 | a segment of one upsert fails exactly on a missing or null key, an empty name, a character outside letters, digits, `_` and `.`, or over 65535 columns; otherwise the row is stored under its key, over an old row only the given columns change, and no other row does |
| `Replay.OneDelete` | crates/agentic-memory/src/restore.rs:461-507 | a segment of one delete removes exactly the row under its key |
| `Replay.OddEnvelopes` | crates/agentic-memory/src/restore.rs:137-165 | an envelope without both `op` and `row` is a plain row to insert; an unknown operation, a row that is no object and an empty delete fail; an empty upsert is skipped |
| `Manifest.PushOrderFacts` | crates/agentic-memory/src/segment.rs:119-128 | pushing any refs lists each exactly once, by key, equal keys newest first |
| `Manifest.PushOrderIrrelevant` | crates/agentic-memory/src/segment.rs:119-128 | refs with distinct keys pushed in any order give one strictly sorted list, a permutation of the input, which decodes under every nonempty schema version |
| `Manifest.PushedDecodesIff` | crates/agentic-memory/src/segment.rs:157-204 | a pushed manifest passes the decode check exactly when the schema version is nonempty and, among refs with equal keys, upper bounds strictly shrink in push order |
| `Manifest.GrowingTieDoesNotDecode` | crates/agentic-memory/src/segment.rs:138-204 | two deltas of one table starting at the same key, the second reaching further, give a manifest that cannot be read back |
| `Manifest.ShrinkingTieDecodes` | crates/agentic-memory/src/segment.rs:138-204 | the same two deltas in the other order, the second reaching less far, give one that can |
| `Manifest.SegmentManifest.Push` | crates/agentic-memory/src/segment.rs:119-128 | the in-place insertion puts the ref where the order the lemmas speak of wants it |
| `Manifest.SegmentManifest.ValidateInvariants` | crates/agentic-memory/src/segment.rs:167-204 | the single pass over neighbours accepts exactly the manifests in which every pair is strictly ordered |
| `SealOrder.ConflictOrderSuffices` | crates/agentic-memory/src/restore.rs:89-105 | any rearrangement that keeps segments sharing a key in seal order replays to the same table, or the same failure, from every starting table |
| `SealOrder.SafeOrderIff` | crates/agentic-memory/src/restore.rs:89-105 | an order agrees with seal order for every content exactly if it keeps that promise; where it does not, two contents under the very same keys, first to last, tell the difference |
| `SealOrder.PushedManifestAgreesIff` | crates/agentic-memory/src/segment.rs:119-128 | a pushed manifest replays like seal order, for every content whose first key, last key and count its refs record, exactly if, of two segments sharing a key, the earlier sealed sorts strictly below the later |
| `Restore.Database.RestoreManifest` | crates/agentic-memory/src/restore.rs:57-119 | one transaction: every segment is fetched first; on success each tracked table is what the manifest rebuilds, no other table changes and the change log is empty; on failure nothing changes |
| `Restore.Preload` | crates/agentic-memory/src/restore.rs:64-77 | the pre-load succeeds exactly when every named segment can be fetched |
| `Restore.RebuildTable` | crates/agentic-memory/src/restore.rs:81-105 | the loop over one table's entries rebuilds it from empty in manifest order |
| `Restore.TablesDoNotMix` | crates/agentic-memory/src/restore.rs:100-104 | one table's entries in a shared manifest are the manifest it would have had alone |
| `Restore.BootstrapRestoresIff` | crates/agentic-memory/src/postgres.rs:242-410 | a bootstrap manifest, also next to other tables, restores the scanned table, row for row, exactly if every row can be inserted back |
| `Restore.UpdateIsLost` | crates/agentic-memory/src/restore.rs:89-105 | baseline rows 1 to 5 and a delta updating row 1: replaying in seal order gives the new row, restoring the manifest gives the old one |
| `Restore.EmptyRebuilt` | crates/agentic-memory/src/restore.rs:81-105 | a tracked table without segments comes out empty, exactly if its names are valid identifiers and every segment of the manifest loads |
| `Restore.OneRowRebuilt` | crates/agentic-memory/src/restore.rs:81-105 | a table with one segment of one inserted row comes out as that row, exactly if table, key and column names are valid identifiers |
| `Segments.SizeIs` | crates/agentic-memory/src/segment.rs:68-76 | the canonical size is a fixed part plus the encoded bounds, the digits of the count and the rows with their commas |
| `Segments.SampleSegment` | crates/agentic-memory/src/segment.rs:68-76 | the canonical text of a segment, written out |
| `Json.EscapeReads` | crates/agentic-memory/src/segment.rs:68-76 | an escaped string reads back by section 7 of RFC 8259, so no two strings are written alike and no quote ends one early |
| `Bootstrap.PushRow` | crates/agentic-memory/src/postgres.rs:345-389 | after each row, through growth and shrinkage of the upper bound, the running counter is the canonical size plus 2 minus the digits of the row count |
| `Bootstrap.LateSealsIff` | crates/agentic-memory/src/postgres.rs:280-300 | in every bootstrap, a segment had reached the target after k rows, before its last one, exactly if k is at least 100 and the size then was at most the digits of k less three above the target |
| `Bootstrap.LateSeal` | crates/agentic-memory/src/postgres.rs:280-300 | for every n of at least 100, n + 1 rows of one length, with the size of the first n as target, end up in one segment |
| `Bootstrap.LateBootstrap` | crates/agentic-memory/src/postgres.rs:253-410 | such a bootstrap, of 101 rows with ids 100 to 200 |
| `Bootstrap.BootstrapTable` | crates/agentic-memory/src/postgres.rs:253-410 | the segments partition the rows in order, none empty, each cut at the first row where the counter reaches the target; it succeeds exactly if both names are valid identifiers, every row has a usable key and the store takes all the segments |
| `Streamer.TableHead.Apply` | crates/agentic-memory/src/streamer.rs:83-129 | an event with a usable key joins the head with bounds and count kept; one without is dropped, leaving at most a new schema version on an empty head |
| `Streamer.TableHead.SealIfNonempty` | crates/agentic-memory/src/streamer.rs:131-153 | a failed store write leaves the head untouched; a successful one moves it to the sealed list under its address |
| `Streamer.TableHead.MaybeSealOnThreshold` | crates/agentic-memory/src/streamer.rs:155-160 | the head is sealed exactly when its size has reached the threshold and the store accepts it |
| `Streamer.StreamerTask.Handle` | crates/agentic-memory/src/streamer.rs:239-301 | one turn of the loop takes every head, the store and the reply to the state the specification gives |
| `Streamer.StreamerTask.OnSnapshot` | crates/agentic-memory/src/streamer.rs:281-298 | heads are sealed in table-name order up to the first failure; success returns all sealed refs pushed in that order |
| `Streamer.RunConserves` | crates/agentic-memory/src/streamer.rs:239-301 | over every command sequence, store failures included, each table's sealed deltas followed by its head are the accepted events in arrival order, interleaved only with the seeded refs; every delta is stored with the count, bounds and schema version of exactly its events |
| `Streamer.EventSeals` | crates/agentic-memory/src/streamer.rs:83-160 | after any run, one event with a usable key forms one segment with the events not sealed yet; exactly if that has reached the threshold and the store accepts it, it is stored, its ref is appended and the head is blank; otherwise it is the head |
| `Streamer.HeadsStayBelow` | crates/agentic-memory/src/streamer.rs:155-160 | over every run in which events meet a working store, whatever snapshots fail, each head is blank or below the threshold |
| `Streamer.SnapshotRepeats` | crates/agentic-memory/src/streamer.rs:281-298 | a snapshot fails exactly when some pending head cannot be stored; two in a row are identical and the second needs no store |
| `Streamer.SnapshotContents` | crates/agentic-memory/src/streamer.rs:239-301 | after a successful snapshot a table's segments hold its anchored rows and then every accepted event, in order |
| `Streamer.SnapshotRestores` | crates/agentic-memory/src/restore.rs:57-119 | restoring that snapshot replays exactly those rows and events in turn, when segments sharing a key kept their seal order |
| `Live.EventsReplayLive` | crates/agentic-memory/src/streamer.rs:21-26 | on a table of one shape the replayed events give the table the user writes produced |
| `Live.SeedReplays` | crates/agentic-memory/src/postgres.rs:472-483 | a table's part of the bootstrap manifest, replayed in manifest order, gives the table that was scanned, however the database sorts its keys |
| `Live.RoundTrip` | crates/agentic-memory/src/postgres.rs:458-497 | spawn the streamer, seed it with the manifest of a bootstrap of all tables, stream any events through any store failures, snapshot, restore: the restored table is the live one under the same condition |
| `Drain.BuildTableResolvers` | crates/agentic-memory/src/triggers.rs:684-726 | exact names resolve to themselves, a bare name only if exactly one configured entry has it |
| `Drain.ResolvesTo` | crates/agentic-memory/src/triggers.rs:546-565 | a configured name resolves to itself; any other exactly if one configured entry owns its bare name, and then to that entry, whatever schema either is in |
| `Drain.CrossesSchemasIff` | crates/agentic-memory/src/triggers.rs:546-565 | the event of a table in one schema is taken for a table in another exactly if its name is not configured, one entry owns its bare name, and that entry is qualified |
| `Drain.OtherSchemaIsTakenIn` | crates/agentic-memory/src/triggers.rs:444-454 | with `a.t` configured alone, a row of `b.t` passes the strict fence and becomes an event of `a.t` |
| `Drain.GoodIff` | crates/agentic-memory/src/triggers.rs:425-462 | a row is well formed exactly if all three columns decode, the operation is insert, update or delete, and its table resolves |
| `Drain.EndsBecause` | crates/agentic-memory/src/triggers.rs:377-632 | which way a call ends, and how many events it sent, from the log, the mode, the schema version, the streamer and the DELETE |
| `Drain.ChangeLog.DrainOnce` | crates/agentic-memory/src/triggers.rs:377-632 | one batch, strict or lenient, with rows becoming visible between SELECT and DELETE, the streamer failing after any number of sends, and the DELETE itself failing after all of them |
| `Drain.LenientRemoves` | crates/agentic-memory/src/triggers.rs:474-632 | a lenient call that completes removes exactly the rows up to its batch's last id, and has forwarded its well-formed rows, one for one and in id order |
| `Drain.LenientKeeps` | crates/agentic-memory/src/triggers.rs:377-632 | a lenient call that ends otherwise deletes nothing; what it sent is a first part of its batch's well-formed rows, all of them if the DELETE failed |
| `Drain.NothingLostIff` | crates/agentic-memory/src/triggers.rs:606-615 | no row disappears unseen exactly if every row that became visible meanwhile has an id above the batch |
| `Drain.LateRowIsLost` | crates/agentic-memory/src/triggers.rs:606-615 | a row committed late under a smaller id is deleted without being forwarded |
| `Drain.StrictStep` | crates/agentic-memory/src/triggers.rs:425-462 | one strict call, whichever way it ends, keeps deleted rows plus remaining rows equal to all rows in id order; sent rows still in the log are a first part of the batch after a lost streamer, the whole batch after a failed DELETE, and none otherwise |
| `Drain.ChangeLog.DrainToCompletion` | crates/agentic-memory/src/triggers.rs:331-349 | with no other writer: on success the events are the log, exactly once, in id order, and the log is empty; on a malformed row or an unreadable version forwarded then remaining rows are the original log, the malformed row still in it; after a lost streamer or a failed DELETE the rows sent but not deleted are named exactly; with writers the same of all rows that became visible; it is a run of single strict calls, named call by call; the loop terminates |
| `Delivery.ReplayTwice` | crates/agentic-memory/src/restore.rs:379-507 | replaying any list of entries a second time right away, deletes and partial rows included, changes nothing |
| `Delivery.CallsDeliver` | crates/agentic-memory/src/triggers.rs:377-632 | poller calls and strict drains in any mix, each ending in a success, a malformed row, a lost streamer or a failed DELETE, while rows become visible in id order: what was sent, then what is still in the log, replays like all rows there ever were, each once; rows sent twice do no harm |
| `Delivery.LogRoundTrip` | crates/agentic-memory/src/postgres.rs:519-549 | bootstrap, any such calls until the log is empty, the streamer with any store failures and snapshots, a last snapshot, restore: the table is the bootstrapped one with the logged writes applied in id order, each once, under the same condition |
| `Quiesce.QuietWindow` | crates/agentic-memory/src/triggers.rs:62-68 | while any restore holds its token the poller holds no batch and can neither forward nor delete |
| `Quiesce.OneToken` | crates/agentic-memory/src/triggers.rs:62-68 | no two restores hold a token at once |
| `Quiesce.WipedNeverForwarded` | crates/agentic-memory/src/restore.rs:107-117 | in every interleaving no row in the change log when a restore commits is ever forwarded afterwards |
| `Quiesce.TickRuns` | crates/agentic-memory/src/triggers.rs:229-260 | with the lock free a poller tick can run to its end: it forwards a whole batch in order, deletes it and frees the lock |
| `Quiesce.FailedTickUnlocks` | crates/agentic-memory/src/triggers.rs:229-260 | a tick that fails frees the lock and has deleted nothing |
| `Quiesce.RestoreRuns` | crates/agentic-memory/src/restore.rs:107-117 | with the lock free a restore can run to its end; one that commits empties the log, one that does not changes nothing |
| `Quiesce.UsersWriteAnyTime` | crates/agentic-memory/src/triggers.rs:62-68 | a user write is possible in every reachable state, and its row gets an id above all others |
| `Objects.ClosurePresent` | crates/agentic-core/src/object.rs:88-137 | in a whole store every chain of references of any length ends at a present object of the expected kind |
| `Objects.CommitParts` | crates/agentic-core/src/object.rs:88-137 | in a whole store a commit's parent, trees with all their entries, blobs, manifest and all its segments can be loaded as what they are |
| `Staging.EveryCutHealthy` | crates/agentic-core/src/commit.rs:111-160 | steps that only refer backwards can be cut off anywhere: store whole, tips are stored commits, HEAD names a branch with a tip, nothing stored is lost |
| `Staging.StagePlanOrdered` | crates/agentic-core/src/commit.rs:118-157 | the staging order only refers backwards, and its last step moves the branch to the new commit |
| `Records.StagedSays` | crates/agentic-core/src/commit.rs:111-160 | a store that holds what staging puts holds a commit with exactly the inputs' author, message, time, parent and the rest, whose trees and blobs read back as given |
| `Records.StagingSucceedsIff` | crates/agentic-core/src/commit.rs:168-213 | staging succeeds exactly if the scanner passes every blob, without its entropy rule exactly under an exempt prefix, the branch name is valid and there is room for every object and the ref |
| `Repository.CommitPlanOrdered` | crates/agenticd/src/commit.rs:57-129 | memory, staging, branch and HEAD in that order only refer backwards |
| `Repository.RecordPlanOrdered` | crates/agenticd/src/rollback/mod.rs:393-421 | so does a rollback's forward record, to any stored commit |
| `Repository.CommitSays` | crates/agenticd/src/commit.rs:57-129 | a commit that went through, also without its HEAD write, says what was asked, is the new tip of the branch the request means over its old tip, and sets HEAD only if there was none |
| `Repository.CommitSucceedsIff` | crates/agenticd/src/commit.rs:57-129 | a commit goes through exactly if its branch name is valid, the scanner passes segments, manifest and blobs, and there is room for all of it |
| `Repository.EveryRunHealthy` | crates/agenticd/src/commit.rs:57-129 | over all runs of commits, rollback records and sealed segments, each cut at any step, the repository stays healthy and keeps every stored object, if recorded snapshots name stored segments, as `Comeback.OwnSegments` and `Streamed.EveryRunGiven` show of the two adapters |
| `Repository.EveryCommitPaired` | crates/agenticd/src/commit.rs:139-161 | starting from nothing, every stored commit has a schema version exactly if it has a manifest |
| `Streamed.EveryRunGiven` | crates/agenticd/src/commit.rs:82-129 | streamer commands, commits of the snapshots it answered, rollback records and seals in any order, each cut anywhere, on one object store: the repository stays healthy, holds every segment the streamer stored, and every snapshot ever answered can still be committed |
| `Repository.TipClosurePresent` | crates/agenticd/src/commit.rs:241-260 | starting from nothing, whatever any branch tip reaches through any chain of references is present |
| `Repository.WalkLog` | crates/agentic-core/src/commit.rs:216-241 | the loop returns the parent chain, newest first, up to the limit, or fails if it meets a missing or wrong object |
| `Repository.LogNeverFails` | crates/agentic-core/src/commit.rs:216-241 | in a healthy repository the log of a tip can always be walked |
| `Repository.LogStable` | crates/agentic-core/src/commit.rs:216-241 | later writes never change a log |
| `Repository.StagedLog` | crates/agentic-core/src/commit.rs:111-160 | after staging the new tip's log is the new commit followed by the old log |
| `Repository.StagedRefs` | crates/agentic-core/src/commit.rs:156-157 | staging moves one branch, only on success, and never HEAD |
| `Repository.Repo.PutObject` | crates/agentic-core/src/store.rs:113-137 | a refused or failed put changes nothing; trees and commits are never scanned |
| `Repository.Repo.WriteBranch` | crates/agentic-core/src/refs.rs:98-105 | an invalid name is refused before anything is written |
| `Repository.Repo.WriteHead` | crates/agentic-core/src/refs.rs:71-75 | the same for HEAD |
| `Repository.Repo.StageBlobTree` | crates/agentic-core/src/commit.rs:168-199 | blobs go in name by name, then the tree that names them; an empty map leaves nothing; wherever it stops, the disk is what the steps so far made it |
| `Repository.Repo.StageOptionalBlob` | crates/agentic-core/src/commit.rs:202-213 | nothing for a missing payload, one blob otherwise |
| `Repository.Repo.StageAndCommit` | crates/agentic-core/src/commit.rs:111-160 | the method performs the staging plan step by step and reports success exactly if all of it was done; the commit it stored says, field by field, what the inputs and the clock say, and every tree and blob reads back |
| `Repository.Repo.PersistSnapshot` | crates/agenticd/src/commit.rs:139-161 | segments first, then their manifest |
| `Repository.Repo.ExecuteCommit` | crates/agenticd/src/commit.rs:57-129 | performs the commit plan; success does not depend on the HEAD write; the branch the request means then names a commit that says what was asked, over that branch's old tip, with manifest and segments stored |
| `Memory.InMemoryAdapter.Snapshot` | crates/agentic-memory/src/in_memory.rs:127-165 | the manifest and segments of the nonempty tables, in name order |
| `Memory.SnapshotRoundTrip` | crates/agentic-memory/src/in_memory.rs:127-239 | restoring a stored snapshot gives exactly the nonempty tables it was taken from |
| `Memory.SnapshotDecodesIff` | crates/agentic-memory/src/in_memory.rs:127-165 | its manifest decodes exactly when the schema version is not empty |
| `Memory.TablesByRef` | crates/agentic-memory/src/in_memory.rs:222-237 | with one ref a table the restored tables do not depend on the refs' order |
| `Memory.TablesInOrder` | crates/agentic-memory/src/in_memory.rs:222-237 | any manifest reads exactly if all its segments are stored; its tables are the ones it names, each with the rows of all its segments in manifest order |
| `Memory.InMemoryAdapter.RestoreWithGuard` | crates/agentic-memory/src/in_memory.rs:208-239 | all tables or none, and only at the snapshot's own schema version |
| `Memory.InMemoryAdapter.ApplyReverseMigrations` | crates/agentic-memory/src/in_memory.rs:241-278 | all steps or none: they must peel the applied list newest first |
| `Memory.ReverseReachesTarget` | crates/agentic-memory/src/in_memory.rs:176-201 | a target is known exactly if it is the baseline, an applied migration or the live version; its steps always apply, touch no table, and reach it exactly if the adapter is not stranded there, which one in step with its migrations never is |
| `Diff.DiffEntries` | crates/agentic-core/src/diff.rs:178-199 | the three lists say exactly, in name order and with the right hashes, how the second tree differs from the first |
| `Diff.PatchGives` | crates/agentic-core/src/diff.rs:161-205 | applying the diff to the first tree gives the second |
| `Diff.ReverseUndoes` | crates/agentic-core/src/diff.rs:161-205 | the reversed diff describes the way back and undoes the patch |
| `Diff.EmptyIff` | crates/agentic-core/src/diff.rs:200-204 | the diff is empty exactly when the trees agree; no name is in two lists |
| `Diff.DiffUnique` | crates/agentic-core/src/diff.rs:19-21 | there is only one such diff |
| `Diff.DiffTree` | crates/agentic-core/src/diff.rs:161-205 | nothing is reported exactly when the hashes or the trees agree; it fails exactly when a tree that has to be loaded cannot be |
| `Diff.DiffCommits` | crates/agentic-core/src/diff.rs:99-113 | the diff fails exactly if a commit, or a tree or model that has to be compared by content, cannot be loaded; each dimension is reported exactly if it differs, with both values, and nothing at all exactly when the commits agree on all six |
| `Writeback.EntryFate` | crates/agenticd/src/rollback/writeback.rs:85-107 | an entry survives the write loop with its bytes exactly if no later entry's temporary file takes its place |
| `Writeback.MirrorsIff` | crates/agenticd/src/rollback/writeback.rs:44-67 | with distinct paths, the wanted files are the tree's entries exactly if no entry is the `.tmp` sibling of a later one |
| `Writeback.TmpNameIs` | crates/agenticd/src/rollback/writeback.rs:101 | the temporary sibling of `stem.ext` is `stem.tmp`; of a name without a dot past its first character, the name with `.tmp` appended |
| `Writeback.TmpPromptIsLost` | crates/agenticd/src/rollback/writeback.rs:101-106 | into an empty directory `a.tmp` and `a.txt` are restored with success, and `a.tmp` is gone |
| `Writeback.Directory.CreateDirAll` | crates/agenticd/src/rollback/writeback.rs:49-60 | makes exactly the missing directories on the way, and fails exactly when one of them is a file |
| `Writeback.Directory.WriteBlobSafely` | crates/agenticd/src/rollback/writeback.rs:85-107 | replaces the file and consumes the sibling, keeping the tree well formed, exactly if neither path is a directory and the parent exists |
| `Writeback.Directory.SweepOrphans` | crates/agenticd/src/rollback/writeback.rs:143-174 | below the directory exactly the wanted files stay, and exactly the directories that hold one |
| `Writeback.Directory.RestorePrompts` | crates/agenticd/src/rollback/writeback.rs:44-67 | succeeds exactly if every entry has a usable name and a loadable blob and finds its place free in its turn; then, for any prior contents, only files the tree names stay, no directory is empty, and the tree is mirrored under the condition above |
| `Rollback.LoadSteps` | crates/agenticd/src/migrate.rs:50-132 | the steps in the order asked for, exactly if every file exists under a plain name and is reversible or data loss is accepted |
| `Rollback.LoadableIff` | crates/agenticd/src/migrate.rs:97-105 | a migration can be reversed exactly if its name holds no `/`, no `\` and no `..`, its file exists, and it is reversible or data loss is accepted |
| `Rollback.StepsIff` | crates/agenticd/src/rollback/mod.rs:283-312 | away from the target's schema, the steps are the migrations applied after it, newest first, exactly if all of them can be reversed |
| `Rollback.PreparedIff` | crates/agenticd/src/rollback/mod.rs:207-256 | the checks pass exactly if the target names a stored commit, data loss is approved if accepted, no memory snapshot lacks a schema version, and HEAD is on a branch |
| `Rollback.ReadyTarget` | crates/agentic-core/src/refs.rs:148-163 | a ready rollback goes to the branch tip, the address, or the tip of HEAD's branch that its target names, and its plan starts with it |
| `Rollback.PlanSays` | crates/agenticd/src/rollback/mod.rs:251-384 | exactly which lines a plan has, for every target and live schema, in one fixed order |
| `Hex.AddressReads` | crates/agentic-core/src/hash.rs:33-87 | an address written out names itself |
| `Hex.NamesAddressIff` | crates/agentic-core/src/refs.rs:156-161 | a ref name is read as an address exactly if it is 64 hexadecimal digits |
| `Rollback.RestagedTree` | crates/agenticd/src/rollback/writeback.rs:182-203 | reading a stored tree back and staging it again gives the same hash, or none if it was empty |
| `Rollback.RecordAgrees` | crates/agenticd/src/rollback/mod.rs:393-421 | the recorded commit agrees with its target in every dimension a diff looks at |
| `Rollback.MemoryReachesTarget` | crates/agenticd/src/rollback/mod.rs:263-359 | the memory phase succeeds exactly if, beforehand, the steps can be loaded and, for a target with a manifest, the adapter is not stranded and manifest and segments are readable; it ends at the target's schema exactly if there is a manifest or the adapter was not stranded, with the manifest's tables, or the old ones without a manifest |
| `Rollback.SchemaLeftBehind` | crates/agenticd/src/rollback/mod.rs:263-359 | the concrete stranded adapter whose memory phase succeeds and leaves the schema elsewhere |
| `Rollback.Daemon.MemoryPhase` | crates/agenticd/src/rollback/mod.rs:263-359 | schema and memory end as specified, exactly when that state allows it; a dry run passes exactly if the steps can be loaded, and touches nothing |
| `Rollback.Daemon.PromptsPhase` | crates/agenticd/src/rollback/mod.rs:361-373 | a real run succeeds exactly if the tree can be loaded and written, and leaves what writeback promises; a dry run touches nothing |
| `Rollback.Daemon.Execute` | crates/agenticd/src/rollback/mod.rs:207-433 | a branch name as target means that branch's tip; succeeds exactly if ref, approval, target, memory, prompts and every write of the record are in order beforehand; a dry run or a request refused up front changes nothing; any other failure leaves the migrations reversed only, or memory at the target with the prompts part written, or memory and prompts at the target with the record cut at some step; however it ends a healthy repository stays healthy and keeps every object; a dry run's plan is the executed plan minus its last line; success leaves memory and prompts at the target, the repository healthy, a tip no diff can tell from the target, and a log that is the new commit and then the old log |
| `Rollback.RecordEndsAtTarget` | crates/agenticd/src/rollback/mod.rs:393-433 | the same for the forward-record step alone |
| `Rollback.ExecutedSays` | crates/agenticd/src/rollback/mod.rs:396-421 | the recorded commit has the rollback's own author, message, time and peer, the branch's old tip as parent, the target's code, memory and schema, and no intent, plan, transcript or evals; only its branch moves |
| `Comeback.CommittedStays` | crates/agenticd/src/commit.rs:57-129 | once a commit has gone through, also if its HEAD write failed, its segments, manifest, blobs, trees and the commit itself are in every later store |
| `Comeback.StagedReadsBack` | crates/agenticd/src/rollback/writeback.rs:182-217 | trees and model of a staged commit read back as the maps and bytes that were staged |
| `Comeback.MemoryComesBack` | crates/agenticd/src/rollback/mod.rs:263-359 | a stored snapshot is ready to come back exactly if the steps load, the adapter is not stranded and the version is not empty, and then brings back schema and nonempty tables |
| `Comeback.RollbackReturns` | crates/agenticd/src/rollback/mod.rs:207-433 | commit, then any commits and rollbacks cut off anywhere, then roll back to that commit: ready exactly if everything outside the commit is in place, and executing brings back the schema, the nonempty tables and the prompts of that moment |
| `Shutdown.StepKeepsInv` | crates/agenticd/src/server.rs:700-861 | every step of every handler keeps permits plus live slots at the depth, the gauge exact, the lock with the one handler that believes it has it, and what a reader has read true |
| `Shutdown.SlotsBounded` | crates/agenticd/src/server.rs:199-229 | for any number of handlers and any interleaving at most one executes, live slots never exceed the depth, the gauge never exceeds the live slots |
| `Shutdown.RefusedExactlyWhenFull` | crates/agenticd/src/server.rs:199-217 | a slot is refused exactly when as many handlers as the depth hold one |
| `Shutdown.NothingRunsAfterDrain` | crates/agenticd/src/lifecycle.rs:92-96 | once the drain has had the lock no commit or rollback executes, then or ever after |
| `Shutdown.SnapshotIsOneMoment` | crates/agenticd/src/server.rs:746-778 | a diff's ref snapshot, read ref by ref, is the refs at one moment when no writer was part-way |
| `Shutdown.NeverStuck` | crates/agenticd/src/server.rs:700-727 | while a handler has not ended somebody can always move |
| `Shutdown.RecheckDecides` | crates/agenticd/src/server.rs:724-725 | a commit or rollback that holds the lock executes exactly if no shutdown has been signalled |
| `Shutdown.WriterEndsFor` | crates/agenticd/src/server.rs:700-727 | a commit or rollback that ended has executed, or was refused with the queue full, or met a shutdown at a check |
| `Shutdown.LateWriterTurnedAway` | crates/agenticd/src/server.rs:700-705 | one that arrives after the signal never gets a slot |
| `Shutdown.OnlyExecutingWrites` | crates/agenticd/src/server.rs:700-861 | refs move only by the one executing handler, one ref at a time |
| `Shutdown.WriterRuns` | crates/agenticd/src/server.rs:700-727 | from every reachable state with a slot, a free lock and no shutdown, a new commit can run to its end: it executes, its refs stay written, all it took is given back |
| `Shutdown.ReaderRuns` | crates/agenticd/src/server.rs:746-778 | so can a new diff, also after a shutdown, and its snapshot is the refs |
| `Shutdown.FailedReadLeaves` | crates/agenticd/src/server.rs:746-778 | a diff whose read fails gives lock, gauge and permit back |
| `Shutdown.DrainRuns` | crates/agenticd/src/lifecycle.rs:92-96 | a shutdown can be signalled at any time, and a free lock then goes to the drain and comes back |
| `Limits.RateLimiter.TryConsume` | crates/agenticd/src/limits.rs:189-207 | the decision and the new bucket, from the old bucket and the clock reading |
| `Limits.WindowBound` | crates/agenticd/src/limits.rs:176-207 | with a clock that does not run backwards a UID is admitted at most a burst plus the rate times the window's length, in every window |
| `Limits.SpacedNeverRefused` | crates/agenticd/src/limits.rs:176-207 | a UID spacing its requests by the reciprocal of the rate is never refused |
| `Limits.BurstExact` | crates/agenticd/src/limits.rs:176-207 | of requests a new UID makes at one moment exactly the first `2 * rate` are admitted |
| `Limits.WaitExact` | crates/agenticd/src/limits.rs:189-207 | a refused UID is admitted again exactly once the missing part of a token is earned, and has a full burst after two seconds |
| `Limits.NoInterference` | crates/agenticd/src/limits.rs:189-207 | no UID affects another's bucket |
| `Limits.ConnGate.TryAdmit` | crates/agenticd/src/limits.rs:113-137 | refusal happens exactly at a cap, the global one first; the counters keep saying which guards are alive |
| `Limits.ConnGate.DropGuard` | crates/agenticd/src/limits.rs:148-160 | no subtraction saturates, no zero entry remains |
| `Limits.GlobalIsSum` | crates/agenticd/src/limits.rs:87-91 | the global count is the sum of the per-UID counts, none of which is zero |
| `Cache.GcsStore.FetchMap` | crates/agentic-core/src/gcs_store.rs:274-311 | a verified hit or else exactly what the uncached store gives; the cache gains nothing but a download that passed the check |
| `Cache.GcsStore.GetRaw` | crates/agentic-core/src/gcs_store.rs:439-447 | never returns bytes that do not hash to the address; equals the uncached store whenever that succeeds, in every state of the cache |
| `Cache.GcsStore.Get` | crates/agentic-core/src/gcs_store.rs:429-437 | the same for typed objects |
| `Cache.HasIffReadable` | crates/agentic-core/src/gcs_store.rs:449-455 | with nothing damaged, `has` reports an address exactly if a read, raw or typed, would deliver it |
| `Cache.GcsStore.PutRaw` | crates/agentic-core/src/gcs_store.rs:394-427 | a rejected put touches nothing; a failed upload takes the cache entry back; success leaves both sides with the bytes |
| `Cache.GcsStore.PutTyped` | crates/agentic-core/src/gcs_store.rs:350-392 | the same for typed objects |
| `Cache.CacheStaysTrue` | crates/agentic-core/src/gcs_store.rs:274-311 | over all runs of raw and typed puts, failed uploads, raw and typed reads and damage to either side, every cache entry not left damaged decodes to bytes with its own address, or to the text of an object with it |
| `Cache.ReadRepairs` | crates/agentic-core/src/gcs_store.rs:274-337 | whatever sits in the cache, one read that gets through leaves an entry that serves every later read of that kind without the remote |
| `Cache.BadEntryGone` | crates/agentic-core/src/gcs_store.rs:274-337 | an entry that cannot be read or does not check is never served; if it can be evicted it is gone, or replaced by the download just verified |
| `Cache.PutSucceedsIff` | crates/agentic-core/src/gcs_store.rs:350-427 | a put goes through exactly if scanner, cache and upload let it; then both sides hold the payload, otherwise the remote is unchanged; no other address is touched |
| `Cache.FailedPutUnseen` | crates/agentic-core/src/gcs_store.rs:370-391 | a refused put changes nothing; after a failed upload whose rollback worked, reads and `has` are those of a store without a cache |
| `Cache.RemoteStaysTrue` | crates/agentic-core/src/gcs_store.rs:350-427 | over the same runs an undamaged remote only gains genuine objects of either form and loses none |
| `Cache.PutRawThenRead` | crates/agentic-core/src/gcs_store.rs:394-447 | after a successful raw put, any such run with arbitrary cache damage and no object put at that address, a read that reaches the remote returns the bytes that were put, and `has` is true |
| `Cache.PutTypedThenRead` | crates/agentic-core/src/gcs_store.rs:350-437 | the same for an object, with no raw put at its address |

## Left out

- SQL text, parameter binding, column decoding, replication slots and the advisory lock: statements are modelled by what they do to a table; a multi-row upsert fails as a whole on a repeated key.
- Column defaults and types: a column missing from a row holds whatever the table puts there; NOT NULL and CHECK constraints are not modelled.
- Replay.BatchUpsert: a row without the key column is refused, as it is when the key has no default; a serial or identity default, which would let Postgres make up a key, is not modelled. Segments written by bootstrap or the streamer always carry the key.
- A user UPDATE that changes a primary key: the trigger reports the new row only, so `Live.RoundTrip` speaks of tables built from the reported rows.
- Whether a snapshot taken after a restore describes the table: restore does not reset the streamer's sealed list, and nothing is claimed about it.
- Snapshots drain without the pause lock: in-order, exactly-once claims are for one drainer at a time, and `Quiesce` runs no snapshot beside the poller.
- The two-drain interleaving of `drain_to_completion` and the poller is therefore not modelled.
- BLAKE3, HMAC, zstd, serde_json and UTF-8 decoding: functions with the stated hypotheses. The approval gate is one Boolean.
- The secret scanner: a predicate that may refuse any put of a blob, segment or manifest.
- Commit signatures and MCP fingerprinting: a commit has no attestations here, and the tools map is an input.
- Branch name and path rules, symlinks, permissions: names arrive validated, a directory holds regular files and directories only, and an empty directory can always be removed.
- Writeback.Directory.RestorePrompts: file system faults such as a full disk are not modelled, and nothing is said about the directory after a failure, which the source leaves part-way too.
- Rollback.Daemon.Execute: of a prompts directory left part written by a failed restore it says only that it is a well-formed tree.
- The Postgres adapter's reverse migrations: rollback runs against the in-memory adapter; Postgres restore is modelled separately in `Restore`.
- Failure counters, log levels, timeouts, HTTP, sockets, the command line, startup reconciliation of refs, and the Python and website code: input and output, or flat case tables.
- Fairness and timing: `Shutdown.NeverStuck` says a step is always possible, not that it is taken.
