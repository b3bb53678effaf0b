# A log-structured metadata store, verified

The catalog service keeps its metadata in an append-only log of numbered commit objects and
coordinates its replicas through one primitive only, atomic create-if-absent (the
`If-None-Match: *` precondition, section 13.1.2 of RFC 9110). Each replica folds the log into
an in-memory snapshot; the repository functions read that snapshot and hand actions to a commit
loop. This project models that store and proves what it promises.

`dafny verify dfyconfig.toml` checks everything. The files, from the bottom up:

- `Order`, `Keys`, `Model`: byte-wise string order, object keys and padded integers, rows,
  actions and natural keys.
- `Snapshots`, `Replay`, `Scan`: the snapshot with its natural-key index, what interrupted and
  repeated application leaves, and the range scans.
- `Repos`, `Guards`, `Entities`, `Groups`, `Policy`, `Columns`: the closures of the repository functions,
  that they defend uniqueness, and what they mean to their callers.
- `ContentHash`, `Framing`, `Checkpoints`, `Recovery`: lines of text, the FNV-1a guard,
  checkpoints and the record that points to the last one.
- `Tracking`, `Protocol`, `Safety`, `Singleton`, `Visibility`, `Upgrades`, `Stopped`: what the log
  denotes, any number of replicas and tasks as a state machine, and what holds in every run of it,
  rolling upgrades included.
- `ObjectLog`, `CommitLog`, `Stores`, `Refinement`, `Coupling`: the object store with other
  replicas writing between calls, draining a paged listing, reading commits, the store object with
  `open`, `catch_up` and the commit loop, and the proof that such a store, among any other writers,
  is one replica of a run of the state machine.
- `Delta`, `DeltaCommits`, `Latch`, `Hints`: the per-table logs, and the tasks that share a hint.
- `Pagination`: pages and tokens.

How the source's concurrency is modelled: in `Protocol` a step is one access to the log or one
critical section of a replica's lock, and any step of any task may come next. Each replica has
the rows its build can decode (`known`); where `apply` stops is derived from it. In `ObjectLog`
every call first lets the next batch of a schedule of other writers' creates land; the schedule
is arbitrary, so each contract holds for every interleaving at that granularity. `Coupling` joins
the two: where what came in from the schedule is what other replicas can bring (`ByOthers`), the
calls of the store are steps of its replica with the others' steps between them. The bookkeeping
fields `torn`, `at` and `past` in `Protocol` record history for the statements and have no
counterpart in the source, except that the number of versions lost is the loop's counter.

Findings, each backed by a lemma:

- The comment on `replace_all` (crates/uc-db/src/repos/casbin.rs:112-116) says no reader can observe
  a state between the old policy and the new one, and the one on `replace`
  (crates/uc-db/src/repos/property.rs:42-45) calls its atomicity structural. While every build can
  read every entry, that holds of every reader everywhere (`Upgrades.WithoutSkewAllSeeVersions`).
  In a rolling upgrade it need not: a replica that meets a row its build cannot read keeps serving
  with the first part of that commit applied, where the refresh loop has it that the snapshot stays
  where it was (crates/uc-server/src/main.rs:259-264). What it shows is the entries before that
  row, which is the old or the new state if and only if every row is readable or those entries are
  the old state (`Visibility.CatchUpShows`), and it shows it until it is restarted
  (`Stopped.StoppedShowsTheSame`). Two builds and two commits suffice for readers to find no
  property, and an authorizer no rule, where both versions have one
  (`Upgrades.SkewShowsNeitherMap`, `Upgrades.SkewShowsNoPolicy`). A complete replay repairs what
  such a replica left (`Replay.ReplayRepairs`), and what it answered or checkpointed meanwhile does
  no harm to the log (`Protocol.StepKeeps`).
- Replaying a commit over its own result is not always a no-op; exactly when it is not, is
  `Replay.ReplayIsIdempotentIff`, with a two-action example in `Replay.UnguardedReplayDiffers`.
- Column keys are not defended. An insert keeps them unique if and only if it names no place
  (table and ordinal) twice and none that a live column has (`Columns.InsertKeepsCoherence`). When
  it does not, a live replica and one started from a checkpoint of the same rows can list different
  columns: two accepted calls suffice (`Columns.RoutesDisagree`). When all inserts do, every whole
  replica lists every table's columns completely and in order (`Columns.ColumnsAreListed`). The
  create handler's numbering does, up to 2^31 columns, exactly where the table has no column with
  one of the numbers yet (`Columns.EnumeratedIsPlaced`). A new table has none; but two creates at
  one staging location both pass its check and share an id, and then the second create renames the
  first table and brings the same numbers again (`Columns.SecondCreateClashes`,
  `Entities.CreateTableAdds`).
- The NUL separator is a precondition on inputs. A rule set is stored faithfully exactly when
  different rules render to different keys (`Policy.ReplaceAllIsAssignment`); two that do not are
  in `Policy.SomeRulesShareAKey`.
- `{version:020}` lists two negative versions backwards (`Keys.DeltaKeysOrdered`), and the commit
  endpoint passes the client's version on unchecked
  (crates/uc-api/src/catalog_api/delta_commits.rs:83-97). A table whose only commits are -1 and then
  -2 is said to be at -2 (`Delta.NegativeVersionsMislead`). Over a quiet log the latest version is
  right if and only if there is no hint, or some committed version is not negative, or the hint is
  the only committed version (`Delta.QuietIsMaximum`); a range of versions is right if and only if no
  committed negative version is skewed by it (`Delta.QuietIsExact`).
- A `_last_checkpoint` without a checksum lets through exactly the one-byte changes that touch no newline
  (`Recovery.OlderPointerSees`).
- A limit that is not positive pages nothing and gives no token, which a client cannot tell from
  an empty listing (`Pagination.LimitMustBePositive`).

## Model

| member | source | states |
|---|---|---|
| Keys.CommitKeysOrdered | crates/uc-db/src/store/action.rs:178-182 | listing order of commit keys is version order on all of u64, and keys are injective |
| Keys.CommitKeyText | crates/uc-db/src/store/action.rs:178-182 | a commit key is the prefix, twenty decimal digits and the suffix, digit by digit |
| Keys.CommitKeyRoundTrip | crates/uc-db/src/store/action.rs:198-208 | a commit key parses back to its version, for every u64 |
| Keys.VersionFromKeyIff | crates/uc-db/src/store/action.rs:198-208 | a key reads as version v if and only if it is the prefix, decimal digits of v, with or without a plus sign and leading zeros, and the suffix, and v fits in u64 |
| Keys.NotACommitKey | crates/uc-db/src/store/action.rs:184-208 | checkpoint keys and the `_last_checkpoint` key never parse as commits |
| Keys.DeltaKeyIsNotACommit | crates/uc-db/src/store/action.rs:190-203 | no per-table key is ever replayed as a metadata commit |
| Keys.DeltaKeysOrdered | crates/uc-db/src/store/delta_log.rs:45-47 | of two versions of a table, key order is version order if and only if the larger is not negative |
| Keys.DeltaKeyRoundTrip | crates/uc-db/src/store/delta_log.rs:49-51 | a per-table key parses back to its version, negatives included |
| Keys.PadI64Ordered | crates/uc-db/src/store/mod.rs:556-562 | `pad_i64` is a fixed-width strict order embedding of i64 that does not overflow at the minimum |
| Model.NaturalKeysAreUniqueColumns | crates/uc-db/src/store/mod.rs:497-551 | of two rows of a kind whose separated columns are free of NUL, the keys are equal if and only if the columns under the UNIQUE constraint are, for every kind; a kind without the constraint has no key |
| Model.ParentGroup | crates/uc-db/src/store/mod.rs:505-517 | a key lies under a parent's prefix exactly when the row has that parent |
| Model.PropertyGroup | crates/uc-db/src/store/mod.rs:523-526 | with NUL-free types, a property key lies under a group's prefix exactly when the row belongs to the group |
| Model.PropertyKeysCollide | crates/uc-db/src/store/mod.rs:523-526 | two properties of an entity share a key if and only if one type with its NUL begins the other and the key makes up the rest; among NUL-free types, only if type and key are equal |
| Model.JoinIsInjective | crates/uc-db/src/store/mod.rs:532-544 | policy keys identify rules when every column but the last is free of NUL |
| Snapshots.ApplySound | crates/uc-db/src/store/mod.rs:153-186 | whatever is applied, no index entry dangles or keeps a name its row gave up |
| Snapshots.ApplyKeepsCoherence | crates/uc-db/src/store/mod.rs:153-186 | the index stays the exact inverse of the natural keys if and only if an upsert takes a key that is free or its own |
| Snapshots.LookupIsSearch | crates/uc-db/src/store/mod.rs:53-60 | on a coherent snapshot, lookup by key finds a row exactly when a live row carries the key, and that row |
| Snapshots.Snapshot.Apply | crates/uc-db/src/store/mod.rs:153-186 | the in-place update of both maps is the specification's step; a body of another kind, or one the build cannot decode, is refused with nothing changed |
| Scan.ScanIsFilter | crates/uc-db/src/store/mod.rs:64-98 | the range scan that stops early yields exactly the keys of the whole index in the group and beyond the token, ascending |
| Scan.IdsUnderPrefixAreRows | crates/uc-db/src/store/mod.rs:140-149 | on a coherent snapshot, the ids under a prefix are those of exactly the live rows whose key starts with it, each once |
| Scan.ListingsAlikeIff | crates/uc-db/src/store/mod.rs:140-149 | two snapshots with the same rows list the same ids under a prefix if and only if their indexes have the same entries there |
| Scan.ColumnsInOrdinalOrder | crates/uc-db/src/repos/table.rs:151-160 | on a snapshot with a coherent column index (`Columns.ColumnsAreListed` derives that from placed inserts), a table's columns come back complete and by ascending ordinal |
| Replay.ReplayRepairs | crates/uc-db/src/store/mod.rs:343-351 | after any number of applications interrupted anywhere, one complete replay gives the undisturbed rows and a coherent index |
| Replay.PartialReplay | crates/uc-db/src/store/mod.rs:343-351 | replaying a whole commit over any prefix of it gives what applying it once gives, when keys stay unique step by step |
| Replay.ReplayIsIdempotentIff | crates/uc-db/src/store/mod.rs:411-426 | from any snapshot, replaying a commit over its own result is a no-op if and only if no key it writes is overtaken |
| Replay.UnguardedReplayDiffers | crates/uc-db/src/store/mod.rs:153-186 | two unguarded actions after which a replay changes the index |
| Guards.CatalogsGuarded | crates/uc-db/src/repos/catalog.rs:44-202 | every action of the catalog closures takes a key that is free or its own |
| Guards.SchemasGuarded | crates/uc-db/src/repos/schema.rs:50-212 | the same for schemas and their composite key |
| Guards.TablesGuarded | crates/uc-db/src/repos/table.rs:32-266 | the same for tables: create, rename, patch, drop |
| Guards.PropertiesGuarded | crates/uc-db/src/repos/property.rs:46-178 | the same for every step of the multi-action property closures |
| Guards.RulesGuarded | crates/uc-db/src/repos/casbin.rs:46-161 | the same for the policy closures, deduplication included |
| Guards.BuildGuarded | crates/uc-db/src/store/mod.rs:362-367 | on a trusted snapshot, every closure's actions pass the uniqueness guard one by one |
| Guards.BuildDependsOnRows | crates/uc-db/src/store/mod.rs:383-387 | a closure's answer is a function of the rows alone: replicas with the same rows answer alike; dropping columns does as long as the column index is coherent |
| Entities.CreateCatalogAdds | crates/uc-db/src/repos/catalog.rs:44-67 | a taken name refuses; a free one names the new row afterwards, and no other lookup of any defended kind changes |
| Entities.UpdateCatalogMoves | crates/uc-db/src/repos/catalog.rs:114-175 | the row, merged with the update, is found by its new name and no longer by the old; errors exactly as specified; nothing else changes |
| Entities.DropCatalogDrops | crates/uc-db/src/repos/catalog.rs:177-202 | the name no longer resolves; nothing else changes |
| Entities.CreateSchemaAdds | crates/uc-db/src/repos/schema.rs:50-73 | as for catalogs, under the composite key |
| Entities.UpdateSchemaMoves | crates/uc-db/src/repos/schema.rs:143-191 | a rename moves the key within the parent the row has; errors exactly as specified; nothing else changes |
| Entities.DropSchemaDrops | crates/uc-db/src/repos/schema.rs:193-212 | the schema's key no longer resolves; nothing else changes |
| Entities.CreateTableAdds | crates/uc-db/src/repos/table.rs:32-57 | a taken name refuses; a free one names the new row, added if and only if the id is free, else the table that has the id moves there and its old name is gone; nothing else changes |
| Entities.RenameTableMoves | crates/uc-db/src/repos/table.rs:230-266 | a rename moves the key and keeps the rest of the row; an absent table is a silent success |
| Entities.PatchTableStays | crates/uc-db/src/repos/table.rs:182-223 | a patch keeps id, parent and name; an absent table is a silent success |
| Entities.DropTableDrops | crates/uc-db/src/repos/table.rs:105-126 | the table's key no longer resolves; nothing else changes |
| Repos.BuildReadable | crates/uc-db/src/store/mod.rs:417-424 | no closure writes a row of another kind than it names |
| Repos.InsertColumns | crates/uc-db/src/repos/table.rs:132-149 | the loop builds one upsert per column, in order |
| Groups.GetForEntity | crates/uc-db/src/repos/property.rs:20-34 | the loop over listed ids computes the entity's property map; it succeeds if and only if every listed row is a property |
| Groups.MapIsGroup | crates/uc-db/src/repos/property.rs:20-34 | the map holds exactly the live property rows of the entity and type |
| Groups.Replace | crates/uc-db/src/repos/property.rs:46-89 | the loop builds the removals and then one upsert per entry by ascending key |
| Groups.ReplaceIsAssignment | crates/uc-db/src/repos/property.rs:46-89 | replacing is assignment to that entity's map; every other group's map is unchanged |
| Groups.SetIsUpdate | crates/uc-db/src/repos/property.rs:118-153 | setting is a one-key map update; every other group's map is unchanged |
| Groups.DeleteIsRemoval | crates/uc-db/src/repos/property.rs:155-178 | deleting takes one key out, and writes nothing exactly when the key is absent |
| Groups.DeleteAllIsClearing | crates/uc-db/src/repos/property.rs:91-110 | deleting for an entity empties its map and no other |
| Policy.AddIsUnion | crates/uc-db/src/repos/casbin.rs:45-69 | adding adds the rule and answers true exactly when no rule has its key |
| Policy.RemoveIsDifference | crates/uc-db/src/repos/casbin.rs:71-88 | removing takes out the rule with that key and answers whether there was one |
| Policy.RemoveManyIsDifference | crates/uc-db/src/repos/casbin.rs:90-108 | a batch removal takes out exactly the rules whose key is named and answers whether there were any |
| Policy.ReplaceAllIsAssignment | crates/uc-db/src/repos/casbin.rs:117-145 | replacing leaves the first rule given per key and nothing else; that is the given set if and only if keys tell the rules apart |
| Policy.NulFreeRulesTellApart | crates/uc-db/src/repos/casbin.rs:18-30 | they do when the columns but the last are free of NUL |
| Policy.SomeRulesShareAKey | crates/uc-db/src/repos/casbin.rs:117-145 | two different rules with one key, of which replacing the policy keeps the first |
| Policy.ReplaceAll | crates/uc-db/src/repos/casbin.rs:121-145 | the loop with its set of seen keys builds those actions |
| Policy.ClearLeavesNone | crates/uc-db/src/repos/casbin.rs:147-161 | clearing leaves no rule |
| Columns.InsertKeepsCoherence | crates/uc-db/src/repos/table.rs:130-149 | inserting columns with new ids keeps the column index the inverse of the rows if and only if no two of the call share a place and none shares a live column's |
| Columns.InsertAddsColumns | crates/uc-db/src/repos/table.rs:130-149 | inserting adds exactly the columns given, each as given, and changes no other row |
| Columns.DropRemovesColumns | crates/uc-db/src/repos/table.rs:162-177 | on a coherent column index, dropping removes exactly the columns of the table |
| Columns.EnumeratedIsPlaced | crates/uc-api/src/catalog_api/tables.rs:142-150 | the create handler's numbering satisfies that condition if and only if there are at most 2^31 columns and the table has no live column with one of the numbers |
| Columns.SecondCreateClashes | crates/uc-api/src/catalog_api/tables.rs:54-92 | a second create under a table's id is accepted, renames the table, and its columns clash with the first |
| Columns.RoutesDisagree | crates/uc-db/src/repos/table.rs:162-177 | inserting two columns at one ordinal and dropping the table's columns, both accepted, leaves a row that the live replica does not list and one read back from a checkpoint of the same rows does |
| Columns.TidyIffPlaced | crates/uc-db/src/repos/table.rs:130-177 | over a log whose inserts bring new ids, no column key was ever overtaken if and only if every insert was placed on the state it was applied to |
| Columns.ColumnsAreListed | crates/uc-db/src/repos/table.rs:151-160 | in every run with placed inserts, every whole replica lists of every table exactly its columns, by strictly ascending ordinal |
| Columns.HandledIsPlaced | crates/uc-api/src/catalog_api/tables.rs:142-172 | inserts made by the create handler for tables without a column of those numbers are placed |
| Columns.DropsAlikeIff | crates/uc-db/src/repos/table.rs:162-177 | in every run, two whole replicas at one version answer a drop of a table's columns alike if and only if their indexes have the same entries for it, as they do while column keys are unique |
| Checkpoints.DumpIgnoresIterationOrder | crates/uc-db/src/store/mod.rs:192-224 | the lines of a checkpoint are a function of the rows, whatever order the maps iterate in |
| Checkpoints.DumpIs | crates/uc-db/src/store/mod.rs:192-224 | a checkpoint is one upsert for every live row, each as it is, in its place by (kind, id), and no other line |
| Checkpoints.RoundTrip | crates/uc-db/src/store/mod.rs:192-259 | decoding an encoded snapshot gives all rows and, re-encoded, the same lines; it is the identity if and only if every key was indexed to its last holder |
| Checkpoints.RebuiltIndex | crates/uc-db/src/store/mod.rs:226-259 | the rebuilt index is coherent on a set of kinds if and only if the rows of those kinds have unique keys |
| Checkpoints.ReloadedIsSmeared | crates/uc-db/src/store/mod.rs:462-472 | a checkpoint of a half-replayed snapshot is repaired by replay as that snapshot is |
| ContentHash.ContentHash | crates/uc-db/src/store/log.rs:84-91 | the loop computes the hash's defining fold, rendered as sixteen hex digits |
| ContentHash.KnownHashes | crates/uc-db/src/store/log.rs:84-91 | the fold gives the published values for the empty input and for "a" |
| ContentHash.RendersHex | crates/uc-db/src/store/log.rs:84-91 | the sixteen digits are those of the hash in base sixteen, highest first |
| ContentHash.OneByteChangesHash | crates/uc-db/src/store/log.rs:84-91 | two inputs of one length that differ in exactly one byte never hash alike |
| Framing.EncodeCommit | crates/uc-db/src/store/action.rs:116-127 | the loop writes the header line and one line per action |
| Framing.DecodeCommit | crates/uc-db/src/store/action.rs:129-176 | the loop decodes every body to what `CommitOf` says, and refuses what that refuses |
| Framing.CommitOfIff | crates/uc-db/src/store/action.rs:129-176 | a body is a commit if and only if every line that is not blank parses, some line is a header and no header has a later format; the header is then the last, and the actions are those of the other lines, place by place |
| Framing.FirstLine | crates/uc-db/src/store/action.rs:134-141 | with `LastLine`, what the lines of a body are: each ends at a newline, which with a carriage return before it is not part of it |
| Framing.LastLine | crates/uc-db/src/store/action.rs:134-141 | a rest without a newline is a line as it is, unless it is empty |
| Framing.CommitRoundTrip | crates/uc-db/src/store/action.rs:116-176 | a commit read back is the commit written if and only if its format is understood |
| Framing.CutCommitStillReads | crates/uc-db/src/store/action.rs:134-176 | a commit cut after a line still decodes, as a shorter one |
| Framing.CutLineIsRefused | crates/uc-db/src/store/action.rs:131-133 | a commit cut inside a line is refused, unless what is left of the line is blank or parses |
| Framing.EncodeCheckpoint | crates/uc-db/src/store/mod.rs:192-224 | the nested loop over sorted kinds and ids writes the one canonical text, and counts the rows |
| Framing.DecodeCheckpoint | crates/uc-db/src/store/mod.rs:230-259 | the loop decodes every body to what `StateOf` says, and refuses what that refuses |
| Framing.StateOfIff | crates/uc-db/src/store/mod.rs:230-259 | a body is a checkpoint for a build if and only if every line that is not blank parses to an upsert the build can decode; the state is then those upserts, place by place, applied to an empty snapshot |
| Framing.CheckpointRoundTrip | crates/uc-db/src/store/mod.rs:192-259 | a checkpoint body decodes if and only if the build can decode every row, and then to every row with the recomputed index |
| Framing.NewlinesAreLines | crates/uc-db/src/store/log.rs:209-210 | the newline count the reader takes is the line count the writer recorded |
| Recovery.ResolveCheckpoint | crates/uc-db/src/store/log.rs:194-237 | what is adopted is what `_last_checkpoint` resolves to; with nobody writing, None means it resolves to nothing |
| Recovery.ResolvesIff | crates/uc-db/src/store/log.rs:194-237 | the pointer resolves to a version and body if and only if it parses to that version, the body is under that version's key, has the newlines it counts and, when it has a checksum, that checksum |
| Recovery.WriteCheckpoint | crates/uc-db/src/store/mod.rs:462-493 | body first if absent, `_last_checkpoint` last, with the encoder's count and the body's hash; a crash leaves the body alone |
| Recovery.WrittenIsAdopted | crates/uc-db/src/store/mod.rs:474-492 | a body and `_last_checkpoint` written together are adopted unless somebody wrote another body first |
| Recovery.CrashLeavesPointer | crates/uc-db/src/store/mod.rs:483-485 | a crash between the two writes changes nothing a reader resolves, unless `_last_checkpoint` had dangled at that version |
| Recovery.TruncatedIsRefused | crates/uc-db/src/store/log.rs:209-219 | under any pointer with the count of a genuine checkpoint, with a checksum or without, none of its strict prefixes is resolved to |
| Recovery.FlippedIsRefused | crates/uc-db/src/store/log.rs:220-235 | under any pointer with the checksum of a body, none with exactly one byte changed is resolved to |
| Recovery.OlderPointerSees | crates/uc-db/src/store/log.rs:63-73 | under any pointer without a checksum, a body with one byte changed is resolved to if and only if the change touches no newline |
| Recovery.DamageIsNotAdopted | crates/uc-db/src/store/log.rs:194-237 | neither damage is adopted under the `_last_checkpoint` written with it |
| Recovery.PointerIsOnlyAHint | crates/uc-db/src/store/log.rs:187-193 | whatever `_last_checkpoint` holds, the start is nothing or a checkpoint some replica wrote, and it decodes if and only if the build can decode its rows |
| Protocol.StepKeeps | crates/uc-db/src/store/mod.rs:334-493 | every step of every task keeps the protocol's invariant over log, checkpoints, snapshots and calls |
| Tracking.ReplayTracks | crates/uc-db/src/store/mod.rs:343-351 | replaying on from any snapshot a replica or checkpoint can hold reaches exactly the fold |
| Tracking.HeldInterrupted | crates/uc-db/src/store/mod.rs:343-351 | stopping anywhere inside the next entry leaves a snapshot that can be held, on the guarded kinds always and on columns while their keys are unique |
| Tracking.LogIsGuarded | crates/uc-db/src/store/mod.rs:362-367 | a log of closures' answers defends the guarded kinds at every entry |
| Safety.StepRefines | crates/uc-db/src/store/mod.rs:378-449 | every step stutters or is one closure taking effect on the sequential store in one piece, linearised at the winning PUT; of dropping columns, actions and reply are the sequential ones while column keys have stayed unique |
| Safety.HistoryIsFixed | crates/uc-db/src/store/log.rs:29-33 | entries, and the states they fold to, never change in any run |
| Safety.OneEntryPerWin | crates/uc-db/src/store/mod.rs:406-437 | the log holds exactly one entry per won conditional PUT |
| Safety.OneEntryPerCall | crates/uc-db/src/store/mod.rs:378-449 | after a won PUT, a refusal, an empty build or the last loss, a call never puts again: only a new call does |
| Safety.GivingUpMeansSevenOthers | crates/uc-db/src/store/mod.rs:382-448 | in every run, with any number of tasks sharing a snapshot, a call that gives up has lost eight rising versions, seven of them beyond the log as it was at its first read; since then the log has grown by seven, and it is eight past the snapshot then read |
| Safety.OutcomesAreSequential | crates/uc-db/src/store/mod.rs:378-449 | what a call on a whole snapshot is told is the sequential store's answer at some version; an answered write is the next entry and its own replica has it; of dropping columns, while column keys are unique |
| Safety.SnapshotsAreFolds | crates/uc-db/src/store/mod.rs:325-354 | a whole snapshot is the fold of its version with a coherent index; torn or whole, nothing in the index is stale |
| Safety.KeysAreUnique | crates/uc-db/src/store/mod.rs:362-367 | at no version of any run do two catalogs, schemas, tables, properties or rules share a natural key |
| Safety.ReplicasDumpAlike | crates/uc-db/src/store/mod.rs:474-477 | two whole replicas at one version write the same checkpoint |
| Safety.VersionsAdvance | crates/uc-db/src/store/mod.rs:334-354 | no step but a restart lowers a replica's version |
| Safety.AnswersReadTheirWrite | crates/uc-db/src/store/mod.rs:411-437 | in every run, a call that landed is answered if and only if its replica has reached its entry, which it fails to do only when it is next in line and its build cannot decode the entry; a replica already past the entry is left as it is |
| Safety.RecoveryIsTheFold | crates/uc-db/src/store/mod.rs:334-354 | opening from any stored checkpoint, or from none, reaches the head if and only if the build can decode the checkpoint and the entries after it, and then has the rows and the guarded index of the whole log |
| Safety.RecoveryRoutesAgree | crates/uc-db/src/store/log.rs:187-193 | any two recovery routes give the same rows and the same index on guarded kinds, and on columns while their keys are unique |
| Singleton.OneMetastore | crates/uc-db/src/repos/metastore.rs:22-45 | in every run at most one metastore row exists at any version, and all answers on all replicas at all times are that row |
| Singleton.GetOrInitAnswers | crates/uc-db/src/repos/metastore.rs:22-45 | on any snapshot the closure never refuses: with a metastore row live it writes nothing and replies with a live one; with none it adds exactly one, of the name asked for, and replies with it |
| Singleton.MetastoreCallsEnd | crates/uc-db/src/repos/metastore.rs:22-45 | in every run such a call, unless it is abandoned, ends in an answer or in contention, or fails where its build cannot decode the row it just wrote |
| Visibility.ReadersSeeVersions | crates/uc-db/src/repos/casbin.rs:112-116 | a reader of a whole snapshot sees every property map and the policy as of one version |
| Visibility.ReplacementIsOneVersion | crates/uc-db/src/repos/property.rs:46-89 | a replacement's entry takes the store from one map to the other in one version |
| Visibility.InterruptedReplace | crates/uc-db/src/store/mod.rs:343-351 | a property replacement applied up to its first unreadable row is assignment of the entries before it |
| Visibility.InterruptedReplaceAll | crates/uc-db/src/store/mod.rs:343-351 | a policy replacement so applied leaves the rules before it |
| Visibility.CatchUpShows | crates/uc-db/src/repos/casbin.rs:112-116 | a catch-up from a whole snapshot shows a version, or of a replacement the part its build could read, which is the old or the new state if and only if every row is readable or that part is the old state |
| Visibility.EveryCatchUpShows | crates/uc-db/src/store/mod.rs:334-354 | so does every catch-up of every whole replica in every run |
| Stopped.CatchUpStops | crates/uc-db/src/store/mod.rs:343-351 | stopping inside an entry leaves the version with the readable part of the entry on top, coherently indexed |
| Stopped.StoppedShowsPart | crates/uc-db/src/store/mod.rs:343-351 | in every run, a replica so stopped shows of a replacement the entries or rules before the first row it could not read |
| Stopped.StoppedShowsTheSame | crates/uc-server/src/main.rs:259-264 | until it is restarted it shows the same, whatever it and the others do |
| Upgrades.WithoutSkewAllSeeVersions | crates/uc-db/src/repos/property.rs:42-45 | while every replica can read every entry, every reader of every replica and every loaded checkpoint shows exactly a version, at all times of every run |
| Upgrades.SkewShowsNeitherMap | crates/uc-db/src/store/mod.rs:343-351 | a run of two builds in which readers find no property where both versions have one |
| Upgrades.SkewShowsNoPolicy | crates/uc-db/src/repos/casbin.rs:112-116 | a run of two builds in which the policy is empty where both versions have a rule |
| ObjectLog.MemoryLog.PutIfAbsent | crates/uc-db/src/store/memory.rs:50-57 | creates exactly when absent, never overwrites, others' creates landing before it |
| ObjectLog.MemoryLog.Get | crates/uc-db/src/store/memory.rs:59-66 | returns what is stored |
| ObjectLog.MemoryLog.ListAfter | crates/uc-db/src/store/log.rs:37-45 | a page is a prefix of the ordered keys asked for, not empty unless they are |
| ObjectLog.MemoryLog.Put | crates/uc-db/src/store/memory.rs:79-85 | overwrites |
| ObjectLog.ListAllInRange | crates/uc-db/src/store/log.rs:113-143 | against any page sizes the loop ends; over an honest backend it returns in order every key of the range there was at the start and none not there at the end; a backend that ignores where to start is refused unless there is nothing under the prefix or a key past the stop |
| CommitLog.ReadCommitsAfter | crates/uc-db/src/store/log.rs:145-185 | success means versions v+1 to v+n without a hole, each as its object holds it, none of those there at the start beyond the end; over an honest backend failure means a commit that cannot be read, is not under its proper key or had no predecessor at the start; over a quiet dense log it succeeds |
| Stores.Store.ApplyAll | crates/uc-db/src/store/mod.rs:344-349 | applies action by action; a failure leaves a proper prefix applied |
| Stores.Store.CatchUp | crates/uc-db/src/store/mod.rs:334-354 | the snapshot becomes its start followed by consecutive commits the build accepts, at least all there were once the start was chosen; failure leaves it at the first action refused or between two commits, and over an honest backend means a checkpoint or next commit the build cannot decode, or a commit that cannot be read; over a quiet log with nothing unreadable to read it succeeds |
| Stores.Store.Attempt | crates/uc-db/src/store/mod.rs:383-441 | one attempt: refusal, empty build, lost version, or the commit in the log and in the snapshot, and the checkpoint that may follow |
| Stores.Store.Commit | crates/uc-db/src/store/mod.rs:378-449 | the call is the rounds it lost and its end: every state built on, for every outcome, is the snapshot at the start or a start followed by consecutive commits of the log; each end with its effect on log and snapshot; it fails only where a catch-up does, for the same reasons, where its own build refuses its commit, or past the last version |
| Stores.FoughtLoses | crates/uc-db/src/store/mod.rs:382-448 | the versions lost rise, and all but the first were taken during the call |
| Stores.Open | crates/uc-db/src/store/mod.rs:295-307 | whatever others write meanwhile, a new store is a start, none or the checkpoint its pointer resolves to, followed by consecutive commits, at least all there were once the start was chosen; over a quiet log with nothing unreadable to read it succeeds |
| Stores.GivingUpMeansContention | crates/uc-db/src/store/mod.rs:382-448 | giving up after eight attempts means at least seven other commits landed and the log is eight versions past the start |
| Stores.OwnCommitReadsBack | crates/uc-db/src/store/mod.rs:404-427 | what the writer applied locally is what every reader of its commit applies, and the commit stays through the checkpoint after it |
| Refinement.CatchUpIsAStep | crates/uc-db/src/store/mod.rs:334-354 | the store object's catch-up is the protocol's catch-up step |
| Refinement.FailedCatchUpIsAStep | crates/uc-db/src/store/mod.rs:343-349 | so is one that fails |
| Refinement.AnswerIsARead | crates/uc-db/src/store/mod.rs:383-396 | a refused or empty attempt, the first or a later one, is the protocol's read |
| Refinement.StagingIsARead | crates/uc-db/src/store/mod.rs:383-387 | an attempt with something to put, the first or a later one, begins with the protocol's read |
| Refinement.LossIsAPut | crates/uc-db/src/store/mod.rs:438-442 | finding the version taken is its put that loses |
| Refinement.RetryIsEnabled | crates/uc-db/src/store/mod.rs:438-442 | after the catch-up that follows, the protocol lets the call read again |
| Refinement.LandingIsAPut | crates/uc-db/src/store/mod.rs:404-410 | creating the commit is its put that wins |
| Refinement.SettlingIsAStep | crates/uc-db/src/store/mod.rs:411-426 | applying it, whole or as far as the build can, is its settling |
| Refinement.BodyIsAStep | crates/uc-db/src/store/mod.rs:474-481 | writing a checkpoint body is the step that puts a dump taken before |
| Refinement.CheckpointsAreDumps | crates/uc-db/src/store/mod.rs:462-481 | in no run is there a checkpoint that is not the dump of a snapshot |
| Refinement.PointerIsNoState | crates/uc-db/src/store/log.rs:187-193 | whatever is put under `_last_checkpoint`, the objects represent the same cluster |
| Coupling.RoundIsOurs | crates/uc-db/src/store/mod.rs:383-442 | a beaten attempt, the first or a later one, is the read, others, the put that loses, others and the catch-up, after which the call may read again |
| Coupling.CommitIsOurs | crates/uc-db/src/store/mod.rs:378-449 | a whole call, with its losses, its end and its checkpoint, is a path of that task's steps with others' steps between, to a cluster of a run where the replica is where the store is |
| Coupling.CommitStore | crates/uc-db/src/store/mod.rs:378-449 | so `commit` on a store that is a replica of a run leaves it one, and tells the caller what the task is, whatever other replicas bring meanwhile |
| Coupling.GoodTripIsWhole | crates/uc-db/src/store/mod.rs:334-354 | a catch-up that succeeds, from a torn snapshot or checkpoint too, leaves a version, no more and no less, and not behind the head there was |
| Coupling.RefreshStore | crates/uc-db/src/store/mod.rs:325-354 | `catch_up` on such a store leaves it one, and on success whole at a version of the log not behind the head at its start |
| Coupling.OpenStore | crates/uc-db/src/store/mod.rs:295-307 | over objects that represent any cluster of any run, with anything under `_last_checkpoint` and others writing, a new store is a replica booted there, and on success whole at a version not behind the head; if nobody writes it succeeds if and only if the build can decode what it reads |
| Coupling.CommitIsByOthers | crates/uc-db/src/store/mod.rs:383-410 | a closure's answer on the head of the log, put at the next version, is what other replicas can bring of any cluster the objects represent |
| Coupling.CheckpointIsByOthers | crates/uc-db/src/store/mod.rs:462-481 | so is a checkpoint of the head |
| Coupling.ByOthersOn | crates/uc-db/src/store/mod.rs:378-493 | and so is any succession of such |
| Refinement.EncodesNext | crates/uc-db/src/store/mod.rs:404-410 | putting a commit's text under the next key appends its entry to the log it encodes |
| Delta.DeltaLog.Append | crates/uc-db/src/store/delta_log.rs:75-92 | creates at the caller's version, of either sign, exactly when it is free, raising the hint; hints stay committed versions |
| Delta.AppendKeepsPartitioned | crates/uc-api/src/catalog_api/delta_commits.rs:83-97 | appending keeps a partition free of negative versions if and only if the version is not negative |
| Delta.DeltaLog.ListVersions | crates/uc-db/src/store/delta_log.rs:95-125 | ascending, the committed versions of either sign that the key range and the filter let through |
| Delta.QuietIsExact | crates/uc-db/src/store/delta_log.rs:95-125 | those are the versions wanted if and only if no committed version is negative and skewed by the range; always, without negative versions |
| Delta.DeltaLog.LatestVersion | crates/uc-db/src/store/delta_log.rs:194-221 | the highest version beyond the hint or the hint, however stale; without a hint, or with a version that is not negative, between the true maxima at the start and the end of the call; hints stay committed versions |
| Delta.QuietIsMaximum | crates/uc-db/src/store/delta_log.rs:189-193 | with nobody writing it is the maximum if and only if there is no hint, or some committed version is not negative, or the hint is the only one |
| Delta.NegativeVersionsMislead | crates/uc-api/src/catalog_api/delta_commits.rs:83-97 | after appending -1 and -2 to an empty table the answer is -2 |
| DeltaCommits.UpdateTable | crates/uc-api/src/delta_api/tables.rs:154-220 | the head is the latest known version, a committed one, or else -1, which it is when no version is committed; with nobody writing the request succeeds if and only if the versions rise from beyond the head and are all free, and nothing else is put; accepted versions were free in any case, an error leaves the earlier ones in, and the head covers what was committed before unless all versions are negative |
| DeltaCommits.ListForTable | crates/uc-db/src/repos/delta.rs:32-56 | over an honest log it succeeds if and only if every listed document parses; then the rows of exactly the versions listed, ascending, without a hole |
| DeltaCommits.MutateCommit | crates/uc-db/src/store/delta_log.rs:151-187 | absent is a no-op, corrupt and key-changing edits are refused, else the edit of what was read is written back |
| DeltaCommits.MarkBackfilled | crates/uc-db/src/repos/delta.rs:70-77 | an absent commit answers false and a corrupt one is refused, with nothing written; any other answers true and is stored with the flag set and its other fields as they were |
| Hints.HintOnlyRises | crates/uc-db/src/store/delta_log.rs:194-221 | in every run of tasks sharing a table's hint, it never falls, is a committed version and at least every answer given and version appended; each answer is what a listing from the hint its task read brings up |
| Latch.ClaimsStand | crates/uc-db/src/store/delta_log.rs:131-150 | under any interleaving of appends and unprotected edits, one claimant per version, every other field as appended, the flag only going up |
| Latch.MarkedStays | crates/uc-db/src/repos/delta.rs:70-77 | in every run, from a marker's write back on the commit has its flag set, and its other fields as they were |
| Latch.FetchHolds | crates/uc-db/src/store/delta_log.rs:151-187 | what a marker holds after its fetch is the commit of that very version, as it is, with the flag set |
| Latch.AppendIsAStep | crates/uc-db/src/store/delta_log.rs:75-92 | over objects that hold the documents, appending is that interleaving's append, won exactly when the key is free |
| Latch.MarkIsTwoSteps | crates/uc-db/src/store/delta_log.rs:151-187 | marking is its fetch and its write back, with anything in between |
| Pagination.Page | crates/uc-db/src/pagination.rs:11-34 | the longest prefix of the rows within the limit, with a token, the key of the last row kept, exactly when a row is left and the limit is positive |
| Pagination.OneMoreTellsAll | crates/uc-db/src/pagination.rs:6-34 | fetching one row more than the limit gives the page and the token that fetching all would give |
| Pagination.PageShape | crates/uc-db/src/repos/table.rs:87-103 | a page is the rows of the next keys, with a token exactly when keys remain |
| Pagination.PagesAreTheListing | crates/uc-db/src/pagination.rs:6-34 | on one snapshot, following tokens ends and the pages concatenate to the listing |
| Pagination.PagesAreTheRows | crates/uc-db/src/repos/schema.rs:113-132 | which holds exactly the live rows under the prefix, by ascending name |
| Pagination.WalkReturnsOnce | crates/uc-db/src/store/mod.rs:75-98 | with commits between pages, a name present throughout comes out of a completed walk exactly once |
| Pagination.WalkIsExact | crates/uc-db/src/store/mod.rs:75-98 | names of such a walk strictly ascend, so none comes out twice |
| Pagination.LimitMustBePositive | crates/uc-db/src/pagination.rs:16-24 | a first page without a token is the whole listing if and only if the limit is positive or nothing is there |

## Left out

- S3 transport, retries and status mapping, and I/O errors of the backend: the contract of the object log is modelled as the in-memory implementation keeps it.
- JSON: printing and parsing one line are a parameter with an inverse law; UTF-8 validation and white space outside ASCII are not modelled.
- UUID generation: ids are drawn by the caller. Lemmas about groups and rules assume drawn ids are new and distinct; uniqueness and protocol theorems do not. The creation order of rules, which rests on time-ordered ids, is not proved.
- Timestamps, actors, metrics and tracing carry no state; update timestamps are not part of a row here.
- Volumes, functions, models, credentials, external locations and staging tables: rows of these kinds exist, their repository functions do not; they repeat the guarded create and rename, or check outside the commit.
- `user::find_or_create_by_external_id`: it reads a key that nothing defends, so answers could differ between replicas with the same rows.
- The time between two awaits is one step; a local computation is not split further.
- Stores.Store.Commit: follows one call; other tasks of the same replica come between its steps in `Protocol` only. A version that would pass 2^64 - 1 ends the call as failed.
- Stores.Store.CatchUp: other writers create objects and do not overwrite `_last_checkpoint` during a call; `Protocol` lets it name any checkpoint at any time.
- Visibility.EveryCatchUpShows: of a replica that is not whole, `Stopped` says what it shows while it stays in the entry it stopped in; a replica that adopts a checkpoint another build took inside an entry, and then stops inside that very entry, is only known to be repaired by the next complete replay.
- Coupling.CommitStore: that other replicas can bring what came in is a condition on the schedule; `CommitIsByOthers`, `CheckpointIsByOthers` and `PointerIsByOthers` show what meets it.
- A store migrated from the earlier database starts at a checkpoint of version 1 without a commit 1; the protocol starts from an empty log.
- `Snapshot::counts`, `iter` in unspecified order where a kind has several rows, and `try_snapshot` feed metrics only.
- `usize` has 64 bits.
- DeltaCommits.UpdateTable: other writers create commits and do not overwrite flags during the call; `Latch` lets them, over the same objects.
- DeltaCommits.ListForTable: the same of the rows read during the listing.
- Command handlers other than the `AddCommit` updates of `update_table`, and its other update kinds.
