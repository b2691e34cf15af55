# Verified models of the ERD tool's cores

This project models the algorithmic and protocol cores of a tool that reads database schemas, draws and compares
them, and writes migrations. Each core is stated in Dafny, in the form it has in the repository, and its promises are
proved for all inputs, all runs and all interleavings.

- **Foreign-key cycles** (`Tarjan`, `FkCycles`, with `Graphs` and `Orders`). The iterative depth-first search with its
  explicit work stack returns exactly the strongly connected components, successors first; hence the report names a
  circular dependency exactly when no order of the tables loads every referenced table first. The references are those
  of the rows: an edge row with a row for each of its ends, the last row of an id winning.
- **Import cycles** (`ImportCycles`). The recursive three-colour search reports exactly the cycles that edges back
  into the path of a depth-first search close, each in one rotation; so every cycle shares an edge with a reported
  one, every strongly connected component holds one, and none is reported exactly when the graph without self-loops is
  acyclic.
- **Snapshot index, diff, migration, safety report** (`SchemaIndex`, `IndexMeaning`, `SchemaDiff`, `SnapshotDiffs`,
  `DiffMeaning`, `Migration`, `MigrationStatements`, `MigrationOrder`, `MigrationRuns`, `MigrationTheorem`,
  `MigrationMirror`, `MigrationSafety`, `MigrationRisks`, `Introspection`). What index, diff, statement list and
  report hold is said over rows and snapshots alone. The index does not depend on object ids or row order. The
  migration is a statement list with a small-step meaning over an abstract database that refuses illegal steps; the
  main theorems say exactly when a run is accepted throughout and ends in the target schema, and exactly when the way
  back restores the base. A schema read twice has no difference, an empty migration and no risks.
- **Job queue** (`JobQueue`, `JobOutcomes`, `JobHistory`). Workers, transactions, row locks, crashes and an unreliable
  set of signals as a state machine: handlers start at most once, statuses only move forward, snapshots and their data
  agree, exactly the crashes behind a claim strand a job, rows tell how their job ended, and without the signals every
  run is a run of a queue that only has its table and hands out the oldest job first.
- **Rate limiter** (`RateLimiter`, `Eviction`). The bounded map with two-stage eviction against a counter that never
  forgets, with real-number windows; of the live buckets the one hit least recently is evicted.
- **Signing-key cache** (`JwksCache`). Double-checked locking with a lifetime and a minimum refresh interval, for any
  number of callers.
- **Index advice** (`IndexDefinitions`, `IndexRedundancy`, `WrittenIndexes`). The scanner for column lists against a
  definition by parity of quotes; for which column names following all drop advice at once is safe.
- **Forward-apply validator** (`ForwardTokens`, `ForwardDdl`, `ForwardVerdict`). Layout and tokenising are inverse; the
  returned text keeps every token and is accepted unchanged; a text is accepted exactly if it has a stated form, which
  names what each of the three statement kinds has to look like, and otherwise the error is the stated one.
- **DBML** (`DbmlLines`, `Dbml`, `DbmlSettings`, `DbmlNotes`, `LostReferences`, `DbmlRoundTrip`, `DbmlExports`,
  `DbmlInputs`, `DbmlBlocks`). Importing an exported diagram gives the diagram back, and exactly what is lost when it
  does not; beside that, what documents written by hand are read as: references in settings and on lines, in both
  directions, blocks that are passed over, and index lists.

`Dicts`, `Lists`, `Text`, `Snapshots`, `Orders` and `Graphs` hold what the others share.

Every lemma is marked `{:induction false}`, so that a proof is no more than what its body says. The automatic
induction of Dafny 4.11 assumes for a hypothesis over two sequences that the functions in the precondition may be
called on sequences of any type, and false statements can be proved from that.

## What the proofs found

Where the code and its documentation disagree the models follow the code.

- A migration does not always reach its target. It does exactly under `MigrationTheorem.Applicable`: a removed foreign
  key without a name is only noted, so it stays behind unless its table leaves in time; the primary key of a surviving
  table is only noted, so `DROP NOT NULL` on one of its columns is refused; a new foreign key that takes the old name
  of a kept one is refused; no schema is created for the empty name. Each has a lemma with a concrete input
  (`UnnamedStaysBehind`, `DroppedKeyIsRefused`, `ReusedNameIsRefused`, `EmptySchemaIsRefused`).
- Up and down migrations are documented as exact mirrors. They are, down to keys, comments and names, exactly if both
  are applicable, no schema had to be created, no column of a surviving primary key went on the way, and no table that
  went had a comment (`MigrationMirror.ExactMirrorIff`); tables, columns and foreign keys come back exactly under
  `BothWays` (`ThereAndBackIff`).
- A job stays running for good exactly if its worker crashed after committing the claim
  (`JobOutcomes.StrandedInRunIff`, `StrandedStays`). A failed job's snapshot is failed exactly if the handler recorded
  a failed introspection (`FailedSnapshotIff`); otherwise it stays queued, running or even succeeded
  (`FailedJobLeaves`).
- The advice on indexes compares columns as it reads them: in lower case, first words only, split at commas. Following
  it is safe for every list of distinctly named indexes over a set of columns exactly if the reading keeps their names
  apart (`WrittenIndexes.AdviceSafeIff`), as it does for simple names in lower case (`LowerNamesApart`). Of two unique
  indexes on `first name` and `first address` the second is dropped (`FirstWordsClash`), and so with `id` and `Id`
  (`CasesClash`).
- Two unnamed duplicates are both dropped (`SharedNamesAreUnsafe`), and an index reported as kept may itself be advised
  against (`KeptMayBeDropped`).
- `CREATE TABLE` statements are accepted with words after the column list (`TrailingWordAccepted`), while the list of
  `CREATE INDEX` has to end the statement (`IndexStatementIff`).
- The parentheses of `ALTER TABLE` are not checked for balance. A comma outside all parentheses fails to separate two
  actions exactly when an unmatched `)` comes before it (`MissedIff`), and then what follows it is not checked to be an
  action (`StrayHidesAction`); with balanced parentheses every action is (`BalancedCutsAreSeparators`).
- A fetched JSON document `null` is not cached, so the minimum refresh interval does not hold after it
  (`NullIsRefetched`).
- The documented one-line form `Ref name { a.col > b.col }` never gives the reference that is written
  (`LostReferences.BracedIsNeverRead`). It reads as its body would alone (`BracedReference`): with plain names as
  nothing, unless a name of its left side holds the letters `ref` before its last letter (`BracedIsFoundIff`);
  `refs.a > b.c` is read as `s.a > b.c` (`RefsIsReadAsS`).
- Multi-word types are documented as supported, but a column with one is not read (`DbmlLines.MultiWordIsLost`).
  Exported composite foreign keys with plain names are not read back (`LostReferences.CompositeIsLost`).
- A column's settings are searched for `pk` in all of their text: `[ref: > t.pk]` makes the column itself a primary key
  (`DbmlInputs.InlineFlags`).
- An ignored block whose opening brace stands on the next line never ends: one level is counted for the missing brace
  and one for the brace itself, so everything behind it is passed over (`DbmlBlocks.BraceBelowSwallows`,
  `NothingRead`).
- The line that closes an `indexes` list with `}` also ends the table, because closing braces are looked at first:
  columns behind it are not read (`DbmlBlocks.IndexListEnds`, `ColumnBehindIsLost`).
- The report on foreign keys joins schema and table with a dot, so a schema name with a dot can make one table of two
  (`FkCycles.DottedSchemasClash`); without dots in schema names it cannot (`NamesApart`).
- A column's comment is searched like its other settings: `pk` in it makes the column a primary key
  (`DbmlSettings.PkInComment`). A table's comment with two more `{` than `}` makes the importer skip what follows
  (`DbmlNotes.NoteIff`, `BracesSwallow`).

## Model

| member | source | states |
|---|---|---|
| `Tarjan.Sccs` | backend/app/spec/fk_cycles.py:20-65 | for every finite graph the search ends, and its lists are exactly the strongly connected components of the reached nodes, every edge leading to the same or an earlier list |
| `Tarjan.Scan` | backend/app/spec/fk_cycles.py:37-52 | running the top node's iterator keeps the whole search invariant, until it has pushed a new node or is used up |
| `Tarjan.Leave` | backend/app/spec/fk_cycles.py:53-64 | leaving a finished node keeps the search invariant, whether or not it closes a component |
| `Tarjan.PopComponent` | backend/app/spec/fk_cycles.py:53-61 | the inner loop takes off the stack exactly what lies at or above the node |
| `Tarjan.PushKeeps` | backend/app/spec/fk_cycles.py:41-48 | pushing an unnumbered node keeps all parts of the invariant: numbers, lowlinks, paths and finished components |
| `Tarjan.WholeClosed` | backend/app/spec/fk_cycles.py:53-61 | when a node is its own lowlink, no edge leaves the popped nodes except into components found before |
| `FkCycles.LoadOrderIff` | backend/app/spec/fk_cycles.py:97-112 | all components are single tables if and only if some order puts every table after the others it references |
| `FkCycles.NoGroupIff` | backend/app/spec/fk_cycles.py:97-112 | there is no circular group if and only if there is a load order |
| `FkCycles.NoCircularIff` | backend/app/spec/fk_cycles.py:123-129 | the report counts no circular dependency if and only if a load order exists |
| `FkCycles.BuildGraph` | backend/app/spec/fk_cycles.py:80-95 | the edge loop builds from rows by id the tables, self-references and adjacency of the references; `ReferencesIff` says which these are |
| `FkCycles.DetectFkCycles` | backend/app/spec/fk_cycles.py:68-129 | the references are exactly those of the rows; the findings are exactly their circular groups and self-references, circular ones first and each kind in the order of its tables, with right counts; none is circular exactly when a load order exists |
| `FkCycles.ReferencesIff` | backend/app/spec/fk_cycles.py:70-95 | over the rows: one name references another if and only if some edge has a child row and a parent row with these names and its ids, the last row of an id winning |
| `FkCycles.NamesApart` | backend/app/spec/fk_cycles.py:70-78 | with schemas without dots two relations have one name if and only if schema and table agree |
| `FkCycles.DottedSchemasClash` | backend/app/spec/fk_cycles.py:70-78 | with dots two tables can become one |
| `FkCycles.TwoTables` | backend/app/spec/fk_cycles.py:97-112 | two tables that reference each other, and nothing else, are one circular group without a load order |
| `FkCycles.OrdersAndCustomers` | backend/app/spec/fk_cycles.py:68-129 | two rows and two edges of that kind |
| `Graphs.OrderedIsAcyclic` | backend/app/spec/fk_cycles.py:105-110 | an order that puts successors first leaves no two nodes that reach each other |
| `Orders.SortSorted` | backend/app/spec/fk_cycles.py:100-100 | the sort used for tables and findings gives a sorted list |
| `Orders.SortedUnique` | backend/app/spec/fk_cycles.py:100-100 | without ties a sorted list is determined by its elements |
| `ImportCycles.CycleFinder.Dfs` | scripts/python_checks/detect_circular_imports.py:80-96 | the recursive search visits exactly what the node reaches without passing nodes visited before, leaves a node only after all that its edges lead to outside its path, and records exactly the closed paths of the edges from the nodes it leaves back into their path |
| `ImportCycles.FindCycles` | scripts/python_checks/detect_circular_imports.py:74-115 | for some depth-first search from the sorted keys, the list holds exactly the forms of the cycles that its edges back into the path close, self-loops apart, in the order of their starts; each is a closed path of at least two distinct nodes in canonical rotation, and there is none exactly when the graph without self-loops is acyclic |
| `ImportCycles.EveryCycleIsMet` | scripts/python_checks/detect_circular_imports.py:74-115 | every closed walk that is not only a self-loop has an edge in common with a reported cycle |
| `ImportCycles.EveryComponentIsMet` | scripts/python_checks/detect_circular_imports.py:74-115 | whenever two different nodes reach each other, a reported cycle lies in their strongly connected component |
| `ImportCycles.WalkEndsBack` | scripts/python_checks/detect_circular_imports.py:80-96 | in every depth-first search, every closed walk takes an edge back into the path of the node it leaves |
| `ImportCycles.Deduplicate` | scripts/python_checks/detect_circular_imports.py:102-115 | the second loop keeps exactly one form of each cycle that is no self-loop, in the order of their first occurrence |
| `ImportCycles.SameKey` | scripts/python_checks/detect_circular_imports.py:109-110 | rotations of one another have the same least rotation |
| `ImportCycles.NoTwoRotations` | scripts/python_checks/detect_circular_imports.py:102-115 | no two reported lists are rotations of each other |
| `ImportCycles.CycleConnects` | scripts/python_checks/detect_circular_imports.py:88-93 | a reported list shows two different nodes that reach each other |
| `ImportCycles.AllLeft` | scripts/python_checks/detect_circular_imports.py:95-100 | the searches from all starts together are one depth-first search of the whole graph |
| `SchemaIndex.IndexSnapshot` | backend/app/diff/schema_diff.py:27-116 | the row-by-row loops build the index that the rows, resolved to names, determine |
| `SchemaIndex.SetPrimaryKeys` | backend/app/diff/schema_diff.py:74-76 | each table gets its primary-key columns in the order of their ordinals |
| `SchemaIndex.SignForeignKeys` | backend/app/diff/schema_diff.py:97-114 | each group of edges becomes a foreign key identified by its column pairing |
| `IndexMeaning.NamesIff` | backend/app/diff/schema_diff.py:36-40 | an id stands for the table that the last row with it names |
| `IndexMeaning.TablesFromRows` | backend/app/diff/schema_diff.py:38-48 | a table is in the index with a comment if and only if the last row with its name gives that comment |
| `IndexMeaning.ColumnsFromRows` | backend/app/diff/schema_diff.py:50-60 | a table has a column in the index if and only if the last row for it says so |
| `IndexMeaning.KeyFromRows` | backend/app/diff/schema_diff.py:62-76 | for any rows, the primary key holds exactly the names of the key rows of the table, ordered by their ordinals as integers, a row without one counting as its place, and rows that tie in their order |
| `IndexMeaning.KeyAscends` | backend/app/diff/schema_diff.py:74-76 | with ordinals present and distinct, an earlier column of the key comes from a row with a smaller ordinal |
| `IndexMeaning.SignatureIff` | backend/app/diff/schema_diff.py:80-106 | for any rows, a group is a foreign key whose child and parent columns come in pairs from exactly its edge rows, ordered by their ordinals as integers, rows that tie in their order |
| `IndexMeaning.ForeignKeysFromRows` | backend/app/diff/schema_diff.py:80-114 | a foreign key is in the index with a name if and only if the last group of rows that makes it up has that name |
| `IndexMeaning.GroupsByFirstRow` | backend/app/diff/schema_diff.py:80-95 | groups are taken in the order of their first rows |
| `IndexMeaning.TablesByFirstRow` | backend/app/diff/schema_diff.py:38-48 | the tables of the index are listed in the order of their first rows |
| `IndexMeaning.ColumnsByFirstRow` | backend/app/diff/schema_diff.py:50-60 | and so the columns of each table |
| `SchemaDiff.RenamingIsInvisible` | backend/app/diff/schema_diff.py:36-48 | renumbering the relations one-to-one leaves the resolved rows unchanged |
| `SchemaDiff.ResolveReordered` | backend/app/diff/schema_diff.py:36-95 | with unique object ids, reordered rows resolve to reordered rows |
| `SchemaDiff.ReorderingIsInvisible` | backend/app/diff/schema_diff.py:50-114 | with unique names and ordinals, reordered rows give the same index |
| `SchemaDiff.ReintrospectionSameIndex` | backend/app/diff/schema_diff.py:27-116 | renumbered and reordered rows give the same index |
| `SchemaDiff.ReintrospectionHasNoChanges` | backend/app/diff/schema_diff.py:135-194 | a schema read twice has no difference |
| `SnapshotDiffs.DiffSnapshots` | backend/app/diff/schema_diff.py:135-209 | the sorted lists of tables and foreign keys added and removed and, for each surviving table that differs, its changed columns, key and comment with old and new value; the counts belong to these lists, and the flag is set exactly when the snapshots differ |
| `SnapshotDiffs.DiffDetermines` | backend/app/diff/schema_diff.py:135-209 | base and diff determine the target but for what added tables and columns hold: two targets with the same diff do not differ otherwise |
| `SnapshotDiffs.TablesMeaning` | backend/app/diff/schema_diff.py:150-157 | the lists of added, removed and surviving tables are sorted and hold exactly these |
| `DiffMeaning.DiffIs` | backend/app/diff/schema_diff.py:119-194 | over the two snapshots alone: what each list of the diff holds, with old values first and new ones second, and in which order |
| `DiffMeaning.SummaryIs` | backend/app/diff/schema_diff.py:195-209 | each number of the summary is the size of a set of tables, columns or foreign keys of the two snapshots |
| `Introspection.IndexListed` | backend/app/diff/schema_diff.py:27-116 | whatever the rows, the dictionaries of the index list their keys once each, as the generator and the diff need it |
| `Introspection.IndexWellFormed` | backend/app/diff/schema_diff.py:27-116 | when key columns and foreign keys of the rows name columns and constraint names are used once per table, the index is what the theorems on migrations ask for |
| `Introspection.RowsReachTarget` | backend/app/ddl/migration.py:174-228 | the theorem on migrations for indexes built from such rows, with nothing more asked of them |
| `Introspection.NoDifferenceNoMigration` | backend/app/ddl/migration.py:190-228 | in every dialect, snapshots without a difference need no statement and carry no risk |
| `Introspection.ReintrospectionNeedsNothing` | backend/app/ddl/migration.py:174-228 | a schema read twice has no difference, an empty migration and an empty safety report |
| `Introspection.CompareReadings` | backend/app/api/snapshots.py:243-332 | what indexing, diff, generator and report answer for two readings of one schema: no changes, the marker, and no findings |
| `Migration.SnapshotDiffToMigration` | backend/app/ddl/migration.py:184-228 | the loops write the statement list of the specification, and the marker instead exactly when it is empty |
| `Migration.WriteAlterTable` | backend/app/ddl/migration.py:68-111 | the statements for a surviving table: added, dropped and changed columns, then the notes |
| `MigrationStatements.WrittenIff` | backend/app/ddl/migration.py:60-228 | over the two snapshots alone: a statement is written if and only if it is due, for every kind of statement with all that it says |
| `MigrationOrder.WrittenInThisOrder` | backend/app/ddl/migration.py:79-228 | the order of all statements: foreign keys go first, then tables; schemas come, then tables, changes, and foreign keys last; within these as base or target lists its keys; and in a surviving table new columns, dropped ones, changed ones with the type before nullability, the note on the key, the comment |
| `MigrationOrder.WrittenOnce` | backend/app/ddl/migration.py:190-228 | no statement is written twice, but for two foreign keys whose removal reads alike |
| `MigrationRuns.RunDropFks` | backend/app/ddl/migration.py:193-203 | the drop phase removes exactly the named removed foreign keys and no other |
| `MigrationRuns.DropsOnlyThat` | backend/app/ddl/migration.py:140-152 | with names unique per table, a DROP CONSTRAINT hits one foreign key |
| `MigrationRuns.RunDropTables` | backend/app/ddl/migration.py:206-210 | the removed tables can be dropped in their order exactly when no foreign key from elsewhere still points at them |
| `MigrationRuns.RunCreateTables` | backend/app/ddl/migration.py:212-214 | every new table is created once, with its columns and key |
| `MigrationRuns.RunAlterTable` | backend/app/ddl/migration.py:79-111 | altering a surviving table is accepted exactly when no dropped column is in use and no key column leaves NOT NULL, and then gives the target's columns |
| `MigrationRuns.RunAddFks` | backend/app/ddl/migration.py:219-223 | the added foreign keys find their tables and columns, and are accepted exactly when their names are free |
| `MigrationTheorem.RunMigration` | backend/app/ddl/migration.py:190-228 | a whole run is refused exactly when a phase is, and otherwise ends in the stated database |
| `MigrationTheorem.AcceptedIff` | backend/app/ddl/migration.py:190-228 | all phases are accepted and the right foreign keys remain exactly under the conditions on the two snapshots |
| `MigrationTheorem.MigrationReachesTarget` | backend/app/ddl/migration.py:174-228 | running the statements on a database in the base state is legal throughout and ends with the target's tables, columns, rendered types, nullability and foreign keys if and only if the snapshots are `Applicable` |
| `MigrationTheorem.MigrationLeaves` | backend/app/ddl/migration.py:99-110 | what becomes of primary keys and comments: kept as the code leaves them |
| `MigrationTheorem.KeyReachesTarget` | backend/app/ddl/migration.py:99-103 | a surviving table ends with the target's primary key exactly when it had it, or both end without one |
| `MigrationTheorem.KeyColumnRefused` | backend/app/ddl/migration.py:95-103 | whenever a column of a key that stays becomes nullable, the run is refused |
| `MigrationTheorem.DroppedKeyIsRefused` | backend/app/ddl/migration.py:95-103 | a one-column key given up while its column becomes nullable is such an input |
| `MigrationTheorem.EmptySchemaRefused` | backend/app/ddl/migration.py:155-171 | whenever a new table has the empty schema name and the database no such schema, the run is refused |
| `MigrationTheorem.EmptySchemaIsRefused` | backend/app/ddl/migration.py:155-171 | the first table of an empty database, without a schema, is such an input |
| `MigrationTheorem.ReusedNameRefused` | backend/app/ddl/migration.py:193-223 | whenever a new foreign key takes the name a kept one has in the base, the run is refused |
| `MigrationTheorem.ReusedNameIsRefused` | backend/app/ddl/migration.py:193-223 | two snapshots of that kind |
| `MigrationTheorem.UnnamedStaysBehind` | backend/app/ddl/migration.py:145-152 | a removed unnamed foreign key between two surviving tables is still there after the run |
| `MigrationMirror.ThereAndBackIff` | backend/app/api/snapshots.py:296-332 | for all snapshots, running the migration and then the one with the ends swapped is legal throughout and gives the base's tables, columns and foreign keys back if and only if the first is applicable, every unnamed foreign key of the target that the base does not have leaves in time, and no dropped table needs the empty schema |
| `MigrationMirror.ExactMirrorIff` | backend/app/api/snapshots.py:296-332 | it gives the very database back, keys, comments, foreign-key names and schemas included, if and only if beside that no schema is created, no primary key loses a column on the way, and no table that goes has a comment |
| `MigrationMirror.UpLeaves` | backend/app/ddl/migration.py:174-228 | the first run ends in the database of the target snapshot with the kept keys and the old names of kept foreign keys |
| `MigrationMirror.LeftoverRefuses` | backend/app/ddl/migration.py:193-223 | if the first run leaves an unnamed foreign key behind, the second is refused |
| `MigrationSafety.AnalyzeMigrationSafety` | backend/app/ddl/migration_safety.py:41-136 | the report lists the risks of the specification sorted by severity and target, with counts by severity and in total; one flag is set exactly when a finding is destructive, the other exactly when one is not safe |
| `MigrationRisks.RiskIff` | backend/app/ddl/migration_safety.py:50-124 | over the two snapshots alone: a finding is made if and only if it is due, with its severity and category, a new NOT NULL column being a warning |
| `MigrationRisks.RisksOnce` | backend/app/ddl/migration_safety.py:50-124 | no finding is made twice |
| `MigrationRisks.ReportIs` | backend/app/ddl/migration_safety.py:126-135 | the report holds exactly the findings due, destructive ones first, then warnings, then safe ones, each kind in the order of what it is about |
| `MigrationSafety.EmptyMigrationIffNoDifference` | backend/app/ddl/migration.py:190-228 | with plain types on PostgreSQL the migration is empty if and only if the diff finds no difference |
| `MigrationSafety.EmptyReportIffOnlyComments` | backend/app/ddl/migration_safety.py:50-136 | the safety report is empty if and only if only table comments differ |
| `MigrationSafety.DestructiveCountsAgree` | backend/app/ddl/migration_safety.py:50-136 | the destructive findings are as many as the DROP TABLE, DROP COLUMN and primary-key statements written |
| `MigrationSafety.DestructiveFlagIff` | backend/app/ddl/migration_safety.py:128-135 | the flag for destruction is set exactly when the migration holds a DROP TABLE, DROP COLUMN or primary-key statement |
| `Orders.SortStable` | backend/app/ddl/migration_safety.py:126-126 | the sort leaves findings of equal severity and target in the order in which they were found |
| `JobQueue.StepKeeps` | backend/app/jobs/worker.py:126-174 | every step of every worker, of the API and of Valkey keeps the invariant |
| `JobQueue.ClaimKeeps` | backend/app/jobs/worker.py:47-105 | taking a due, unlocked row keeps the invariant |
| `JobQueue.CommitClaimKeeps` | backend/app/jobs/worker.py:31-44 | committing the claim keeps the invariant |
| `JobQueue.DispatchKeeps` | backend/app/jobs/worker.py:141-151 | starting a handler, or failing a job without one, keeps the invariant |
| `JobQueue.FinishKeeps` | backend/app/jobs/worker.py:151-168 | writing a job's outcome keeps the invariant |
| `JobQueue.BeginKeeps` | backend/app/jobs/snapshot_job.py:29-42 | the handler's first transaction, with its two ways to fail, keeps the invariant |
| `JobQueue.RecordKeeps` | backend/app/jobs/snapshot_job.py:47-57 | recording a failed introspection keeps the invariant |
| `JobQueue.StoreKeeps` | backend/app/jobs/snapshot_job.py:59-79 | storing the data together with the status keeps the invariant |
| `JobQueue.CreateKeeps` | backend/app/api/snapshots.py:129-156 | creating a snapshot with its job keeps the invariant |
| `JobQueue.RunInv` | backend/app/jobs/worker.py:126-174 | the invariant holds in every state of every run, whatever crashes and whatever signals are lost, repeated or invented |
| `JobQueue.AtMostOnce` | backend/app/jobs/worker.py:31-105 | in every run each job's handler starts at most once and its attempt count never exceeds one |
| `JobQueue.StatusOnlyForward` | backend/app/jobs/worker.py:126-174 | over any stretch of any run a status only moves from queued to running to succeeded or failed |
| `JobQueue.SnapshotsSafe` | backend/app/jobs/snapshot_job.py:29-79 | data exists exactly for succeeded snapshots, a failed one says why and when, and a succeeded job has a succeeded snapshot with data |
| `JobQueue.ErasedClaimStep` | backend/app/jobs/valkey_queue.py:14-23 | without the signals, popping and claiming is nothing, or handing out a due and unlocked job |
| `JobQueue.RunWithoutValkey` | backend/app/jobs/valkey_queue.py:118-176 | erasing the Valkey state turns every run into a whole run, from an initial state, of an unordered queue that only has its table |
| `JobOutcomes.StrandedIff` | backend/app/jobs/worker.py:76-174 | in any step a job becomes, or stays, running without a worker if and only if it was so before, or its worker crashes after its claim was committed |
| `JobOutcomes.StrandedInRunIff` | backend/app/jobs/worker.py:76-174 | in every state of every run the stranded jobs are exactly those of such crashes |
| `JobOutcomes.StrandedStays` | backend/app/jobs/worker.py:76-105 | a job marked as running that no worker has stays so in every later state of every run |
| `JobOutcomes.CrashStrands` | backend/app/jobs/worker.py:132-141 | every crash after the claim was committed strands the job of its worker |
| `JobOutcomes.FailedSnapshotIff` | backend/app/jobs/snapshot_job.py:29-79 | in every run the snapshot of a job is failed if and only if its handler has recorded a failed introspection |
| `JobOutcomes.FailedJobLeaves` | backend/app/jobs/snapshot_job.py:29-79 | a failed job can leave its snapshot in each of the four statuses |
| `JobOutcomes.SuccessIsReachable` | backend/app/jobs/worker.py:132-156 | a worker that does not crash can bring job and snapshot to success with the data |
| `JobHistory.RowsTellTheEnd` | backend/app/jobs/worker.py:141-168 | in every run the row of an ended job says when and why it ended: with success, with what its handler raised, or with the unknown type |
| `JobHistory.SameMessage` | backend/app/jobs/snapshot_job.py:47-57 | in every run a failed snapshot and its failed job have the same message |
| `JobHistory.QueuedIsDue` | backend/app/jobs/worker.py:88-98 | in every run every queued job is due |
| `JobHistory.OldestFirst` | backend/app/jobs/worker.py:88-98 | in every run a job that the table hands out was created no later than any other that is due and not being claimed |
| `JobHistory.NoneOnlyIfClaimed` | backend/app/jobs/worker.py:88-101 | a worker goes away without a job only if every due one is being claimed |
| `RateLimiter.InMemoryFixedWindowRateLimiter.Hit` | backend/app/rate_limit.py:81-120 | the decision, the waiting time and the new buckets, with eviction in two stages; disabled and zero policies touch nothing |
| `RateLimiter.AfterHitMeaning` | backend/app/rate_limit.py:96-118 | a hit writes one bucket, changes no other, keeps the bound, and evicts no bucket of its window while there is room |
| `RateLimiter.SizeBounded` | backend/app/rate_limit.py:96-108 | the map never exceeds its bound |
| `RateLimiter.NeverStricter` | backend/app/rate_limit.py:110-119 | the count never exceeds that of the counter that never forgets, so no hit is rejected that it would allow |
| `RateLimiter.SameDecision` | backend/app/rate_limit.py:96-120 | in a window with at most `max_keys` keys the counts are equal, for a clock that does not run backwards |
| `RateLimiter.WaitingIsEnough` | backend/app/rate_limit.py:90-94 | the waiting time lies between one second and the window rounded up, and waiting that long lands in a later window |
| `RateLimiter.RoomForKey` | backend/app/rate_limit.py:96-120 | after any history a hit is allowed if its window has seen fewer than the limit of its key, whatever was evicted |
| `RateLimiter.WaitingHelps` | backend/app/rate_limit.py:90-120 | in any history that contains a rejected hit, with any hits of any keys before and after it, a hit of its key after waiting as told is allowed if its window has seen fewer than the limit of the key |
| `RateLimiter.TwoWindows` | backend/app/rate_limit.py:90-91 | an interval one window long meets at most two windows |
| `RateLimiter.AtMostTwiceTheLimit` | backend/app/rate_limit.py:110-120 | any half-open interval one window long lets at most twice the limit through for a key, if in the two windows that it meets no live bucket is evicted |
| `Eviction.OrderedByLastHit` | backend/app/rate_limit.py:116-118 | after any history the buckets stand in the order in which their keys were last hit |
| `Eviction.LeastRecentGoes` | backend/app/rate_limit.py:96-108 | a bucket of the running window is evicted only from a full map without buckets of other windows, it alone, and every bucket that stays was hit later |
| `JwksCache.Cache.Look` | backend/app/auth.py:115-124 | the test before the lock answers exactly from a usable cache |
| `JwksCache.Cache.Enter` | backend/app/auth.py:126-135 | the test after the lock answers and lets go, or keeps the lock to fetch |
| `JwksCache.Cache.Finish` | backend/app/auth.py:137-148 | a response replaces keys and both times, a failure changes nothing, and the lock is free |
| `JwksCache.StepKeeps` | backend/app/auth.py:108-148 | every step of every caller keeps the invariant that ties the globals to the last success |
| `JwksCache.OneFetchAtATime` | backend/app/auth.py:126-148 | at most one fetch is in flight in every reachable state |
| `JwksCache.HistoryOk` | backend/app/auth.py:108-148 | every fetch in every history started at least 60 s (forced) or 300 s (unforced) after the last success unless that was `null`, and every cached answer was younger than that when checked |
| `JwksCache.FetchesIff` | backend/app/auth.py:127-138 | with the lock, a caller fetches if and only if the last success is absent, `null`, or too old for it |
| `JwksCache.SuccessesApart` | backend/app/auth.py:120-148 | any two successes are at least 60 s apart if no document was `null` |
| `JwksCache.NoDeadlock` | backend/app/auth.py:126-148 | while a caller waits, it or the holder of the lock can go on |
| `JwksCache.NullIsRefetched` | backend/app/auth.py:142-148 | a run in which a `null` document is fetched again at once |
| `IndexDefinitions.FirstParenGroup` | backend/app/spec/index_redundancy.py:22-65 | the scanner returns the inside of the first balanced group outside quoted names, by parity of quotes, and nothing exactly when there is none |
| `IndexDefinitions.FirstGroupIsUnique` | backend/app/spec/index_redundancy.py:22-65 | there is only one such group |
| `IndexDefinitions.RecommendedGroup` | backend/app/spec/index_design.py:169-182 | for all names the scanner reads from a recommended statement exactly the column list that was written |
| `IndexDefinitions.QuotingIsLossless` | backend/app/spec/index_design.py:26-31 | the written list determines the columns |
| `IndexRedundancy.ReadColumns` | backend/app/spec/index_redundancy.py:68-82 | the columns of a definition, none when it is partial or indexes an expression |
| `WrittenIndexes.RecommendedIsRead` | backend/app/spec/index_redundancy.py:68-82 | for all names a recommended index is read as the readings of its columns one after the other, nothing if one of them looks like an expression, and nothing if its text looks like a partial index |
| `WrittenIndexes.RowsAreRead` | backend/app/spec/index_redundancy.py:68-100 | for definitions that show their columns, quoted or bare, the detector works on the indexes with these readings |
| `IndexRedundancy.DetectInTable` | backend/app/spec/index_redundancy.py:103-137 | the pairwise loops give the advice on every pair, in order |
| `IndexRedundancy.DetectIndexRedundancy` | backend/app/spec/index_redundancy.py:85-144 | the advice for all tables from the definitions that can be read, duplicates first and each kind in the order of its tables and indexes, with the counts by kind and in total |
| `IndexRedundancy.AdvisedIff` | backend/app/spec/index_redundancy.py:102-137 | with distinct names an index is advised against if and only if it is the worse of two duplicates or a prefix that enforces nothing |
| `IndexRedundancy.ScansStayServed` | backend/app/spec/index_redundancy.py:102-137 | after dropping everything named, each index has a surviving one whose columns as read extend its own |
| `IndexRedundancy.UniquenessStaysEnforced` | backend/app/spec/index_redundancy.py:102-137 | and each unique index a surviving unique one on the same columns as read |
| `WrittenIndexes.AdviceSafeIff` | backend/app/spec/index_redundancy.py:68-137 | for every set of column names: following all advice keeps a surviving index for each index's columns, and a unique one for each unique index, for every list of distinctly named indexes over the set, if and only if no name reads like another one or like its beginning |
| `WrittenIndexes.CommaFreeApart` | backend/app/spec/index_redundancy.py:68-82 | for names without commas that condition is that no two of them read alike |
| `WrittenIndexes.LowerNamesApart` | backend/app/spec/index_redundancy.py:68-82 | simple names in lower case meet it |
| `WrittenIndexes.FirstWordsClash` | backend/app/spec/index_redundancy.py:78-81 | of two unique indexes on names with the same first word the second is dropped without replacement |
| `WrittenIndexes.CasesClash` | backend/app/spec/index_redundancy.py:78-81 | and so on names that differ in case only |
| `IndexRedundancy.OneRoundIsEnough` | backend/app/spec/index_redundancy.py:102-137 | the survivors hold no duplicates, and only unique ones are prefixes |
| `IndexRedundancy.SharedNamesAreUnsafe` | backend/app/spec/index_redundancy.py:98-119 | two duplicates without a name are both dropped |
| `IndexRedundancy.KeptMayBeDropped` | backend/app/spec/index_redundancy.py:121-137 | an index reported as kept is itself advised against |
| `ForwardTokens.RendersIff` | backend/app/pg_introspect/forward_ddl.py:179-186 | the comparison with the squeezed text holds if and only if every character is a blank or part of a token |
| `ForwardTokens.TokensAreTokens` | backend/app/pg_introspect/forward_ddl.py:18-18 | what the tokeniser finds are words, numbers and single marks |
| `ForwardTokens.FormatStatement` | backend/app/pg_introspect/forward_ddl.py:370-378 | the layout loop writes the layout of the specification |
| `ForwardTokens.FormatReadBack` | backend/app/pg_introspect/forward_ddl.py:370-378 | tokenising a formatted statement gives back its tokens |
| `ForwardTokens.OutputReadBack` | backend/app/pg_introspect/forward_ddl.py:174-176 | splitting the output gives back exactly its statements |
| `ForwardDdl.ExpectBalancedParentheses` | backend/app/pg_introspect/forward_ddl.py:327-337 | passes if and only if the parentheses balance and never close too early |
| `ForwardDdl.SplitTopLevelCommas` | backend/app/pg_introspect/forward_ddl.py:340-355 | cuts at the commas outside parentheses |
| `ForwardDdl.ChunksRejoin` | backend/app/pg_introspect/forward_ddl.py:340-355 | joining the pieces with commas gives the tokens back |
| `ForwardDdl.ValidateCreateTable` | backend/app/pg_introspect/forward_ddl.py:203-213 | the verdict on CREATE TABLE with its first error; `TableStatementIff` says which statements pass |
| `ForwardDdl.TableStatementIff` | backend/app/pg_introspect/forward_ddl.py:203-264 | CREATE TABLE is accepted if and only if it has a name, balanced parentheses, only known words, and a constraint, key or column between any two cuts |
| `ForwardDdl.ValidateAlterTable` | backend/app/pg_introspect/forward_ddl.py:216-225 | the verdict on ALTER TABLE with its first error; `AlterStatementIff` says which statements pass |
| `ForwardDdl.AlterStatementIff` | backend/app/pg_introspect/forward_ddl.py:216-293 | ALTER TABLE is accepted if and only if it has a name, only known words, and between any two cuts ADD [COLUMN] name, RENAME COLUMN a TO b or RENAME TO a |
| `ForwardDdl.BalancedCutsAreSeparators` | backend/app/pg_introspect/forward_ddl.py:340-355 | with balanced parentheses the cuts are exactly the commas outside all groups |
| `ForwardDdl.BalancedActionsIff` | backend/app/pg_introspect/forward_ddl.py:216-293 | with balanced parentheses the actions pass if and only if everything between neighbouring commas outside all groups is one of these actions |
| `ForwardDdl.CheckedIff` | backend/app/pg_introspect/forward_ddl.py:216-225 | what lies between two such commas is checked as one action if and only if no comma in it or at its ends is disturbed by an unmatched closing parenthesis |
| `ForwardDdl.MissedIff` | backend/app/pg_introspect/forward_ddl.py:340-355 | a comma outside all groups is no cut if and only if an unmatched closing parenthesis comes before it |
| `ForwardDdl.CutsAreSeparatorsIff` | backend/app/pg_introspect/forward_ddl.py:340-355 | the cuts are the separators if and only if no comma after an unmatched parenthesis lies outside all groups or in as many as there are such parentheses |
| `ForwardDdl.StrayHidesAction` | backend/app/pg_introspect/forward_ddl.py:216-225 | a family of accepted statements whose last word stands where an action should, and is none |
| `ForwardDdl.ValidateCreateIndex` | backend/app/pg_introspect/forward_ddl.py:228-250 | the verdict on CREATE INDEX with its first error; `IndexStatementIff` says which statements pass |
| `ForwardDdl.ValidateForwardDdl` | backend/app/pg_introspect/forward_ddl.py:122-160 | the loop over the statements returns the normalised batch or the first error; `AcceptedIff` and the members behind it say when and which |
| `ForwardVerdict.AcceptedIff` | backend/app/pg_introspect/forward_ddl.py:122-160 | end to end: a text is accepted if and only if it is within the size, ASCII, without comments and quotes, and has 1 to 25 statements, each of supported characters, without refused keywords, and in the form of a CREATE TABLE, an ALTER TABLE or a CREATE INDEX |
| `ForwardVerdict.AcceptedOutput` | backend/app/pg_introspect/forward_ddl.py:143-160 | an accepted text is returned as the layouts of its statements, with semicolons behind them |
| `ForwardVerdict.TextFaults` | backend/app/pg_introspect/forward_ddl.py:132-142 | the error for a text that is refused as a whole |
| `ForwardVerdict.FirstBadStatement` | backend/app/pg_introspect/forward_ddl.py:143-158 | otherwise the error is that of the first statement not in one of these forms |
| `ForwardVerdict.StatementFaults` | backend/app/pg_introspect/forward_ddl.py:143-157 | the error for unsupported characters, an empty statement, a refused keyword and a statement of another kind |
| `ForwardVerdict.StatementIff` | backend/app/pg_introspect/forward_ddl.py:144-157 | the statement passes the check it is sent to if and only if its first two words and the rest have one of the three forms |
| `ForwardVerdict.SpellsIff` | backend/app/pg_introspect/forward_ddl.py:366-367 | words are recognised whatever the case of their letters, and only then |
| `ForwardVerdict.EachKindIsAccepted` | backend/app/pg_introspect/forward_ddl.py:203-250 | for free names, `CREATE TABLE t (c kind)`, `ALTER TABLE t ADD COLUMN c kind` and `CREATE INDEX i ON t (columns)` are accepted and returned with a semicolon |
| `ForwardVerdict.NewTableText` | backend/app/pg_introspect/forward_ddl.py:370-378 | the text of the first of them, character by character |
| `ForwardDdl.NormalFormKeepsTokens` | backend/app/pg_introspect/forward_ddl.py:143-158 | a normalised statement has the original's tokens and is its own normal form |
| `ForwardDdl.OutputKeepsTokens` | backend/app/pg_introspect/forward_ddl.py:122-160 | the returned text has the same statements with the same tokens |
| `ForwardDdl.OutputIsFixed` | backend/app/pg_introspect/forward_ddl.py:122-160 | validating the returned text returns it unchanged if and only if it is within the size limit, and is refused for its size otherwise |
| `ForwardDdl.NoDangerousKeyword` | backend/app/pg_introspect/forward_ddl.py:192-200 | no word of an accepted statement is a refused keyword |
| `ForwardDdl.IndexListIff` | backend/app/pg_introspect/forward_ddl.py:243-250 | the tests on an index list pass if and only if it is one parenthesised list of plain names with nothing after it |
| `ForwardDdl.IndexStatementIff` | backend/app/pg_introspect/forward_ddl.py:228-250 | CREATE INDEX is accepted if and only if its head and words are and its list has that form |
| `ForwardDdl.TrailingWordAccepted` | backend/app/pg_introspect/forward_ddl.py:207-213 | an accepted CREATE TABLE stays accepted with one more word at its end |
| `Dbml.ExportDbml` | frontend/src/erd/dbml.ts:16-107 | the exporter's loops write the lines of the specification, trimmed |
| `DbmlExports.NameWrittenIff` | frontend/src/erd/dbml.ts:8-14 | a name is written as it is exactly if it is empty or plain, and between quotes if not |
| `DbmlExports.TitleWritten` | frontend/src/erd/dbml.ts:34-46 | any title is cut at its first dot; an empty schema is left away in the header of a table, but not in references |
| `DbmlExports.QuotesDoubled` | frontend/src/erd/dbml.ts:4-6 | in comments every quote is doubled, and nothing else is touched |
| `DbmlExports.FirstDropped` | frontend/src/erd/dbml.ts:92-93 | of a handle the first occurrence of the prefix goes, wherever it is |
| `DbmlExports.ColumnsFromHandles` | frontend/src/erd/dbml.ts:87-94 | an edge without columns of its own takes them from its handles |
| `Dbml.ParseDbml` | backend/app/spec/dbml_import.py:126-251 | the importer's loops: every line in turn updates its variables as specified, then the references are resolved; the other rows on the importer say what that makes of a document |
| `DbmlLines.HeaderReads` | backend/app/spec/dbml_import.py:42-110 | a written table header is read as its schema and name |
| `DbmlLines.ColumnReads` | backend/app/spec/dbml_import.py:26-30 | a written column is read as its name, type and settings |
| `DbmlLines.DottedSplits` | backend/app/spec/dbml_import.py:113-123 | a written path is split into its schema, table and column, dots in quotes notwithstanding |
| `DbmlRoundTrip.ReferenceFound` | backend/app/spec/dbml_import.py:33-37 | a written reference line is recognised as one, and found with both its paths |
| `DbmlLines.NotAKeywordLine` | backend/app/spec/dbml_import.py:152-182 | a line that starts with a name that is no keyword is taken for a column |
| `DbmlLines.ColumnReadsIff` | backend/app/spec/dbml_import.py:26-30 | a written column is read back with its type if and only if that is one word, perhaps with arguments and array brackets |
| `DbmlLines.MultiWordIsLost` | backend/app/spec/dbml_import.py:26-30 | a column whose type has several words is not read |
| `DbmlSettings.SettingsSayIff` | backend/app/spec/dbml_import.py:207-231 | what the importer finds in a column's written settings is what the column is, if and only if its comment reads like no other setting |
| `DbmlSettings.PkInComment` | backend/app/spec/dbml_import.py:209-209 | the comment `pk` does not |
| `DbmlNotes.NoteIff` | backend/app/spec/dbml_import.py:149-156 | behind the note and the closing brace of a table the importer reads on if and only if the braces of the comment allow it |
| `DbmlNotes.BracesSwallow` | backend/app/spec/dbml_import.py:149-156 | the comment `{{` does not |
| `LostReferences.BracedReference` | backend/app/spec/dbml_import.py:31-37 | for every name and body, the braced one-line form is read exactly as its body alone |
| `LostReferences.BracedIsNeverRead` | backend/app/spec/dbml_import.py:31-37 | whatever is found in it is never the reference written, for all names and paths |
| `LostReferences.BracedIsFoundIff` | backend/app/spec/dbml_import.py:31-37 | with plain names something is found if and only if a name of the left side holds the letters `ref` with a letter or digit behind them |
| `LostReferences.RefsIsReadAsS` | backend/app/spec/dbml_import.py:31-37 | `refs.a > b.c` is read as a reference of `s.a` |
| `LostReferences.CompositeIsLost` | backend/app/spec/dbml_import.py:31-37 | in the written line of a composite key with plain names no reference is found |
| `DbmlRoundTrip.NameWritten` | frontend/src/erd/dbml.ts:8-14 | a written name is a readable one and stands for the original |
| `DbmlRoundTrip.TrimmedRun` | frontend/src/erd/dbml.ts:106-106 | trimming the text takes away nothing that is read |
| `DbmlRoundTrip.TablesRun` | backend/app/spec/dbml_import.py:158-224 | after the lines of the tables the importer has their relations, columns and keys, numbered in order |
| `DbmlRoundTrip.EdgesRun` | backend/app/spec/dbml_import.py:182-191 | after the lines of the edges it has their references, in order |
| `DbmlRoundTrip.FksComeBack` | backend/app/spec/dbml_import.py:235-251 | the references resolve to the edges' tables and columns |
| `DbmlRoundTrip.AddWrittenIff` | backend/app/spec/dbml_import.py:207-231 | a column that is read becomes what it was if and only if its comment keeps it |
| `DbmlRoundTrip.RoundTrip` | backend/app/spec/dbml_import.py:126-265 | importing an exported diagram gives its schemas, tables, columns with type, key and nullability, and foreign keys with one column back, in order; composite ones are lost |
| `DbmlInputs.ThreeNames` | backend/app/spec/dbml_import.py:113-123 | a path of three names, plain or quoted, is read as schema, table and column |
| `DbmlInputs.TwoNames` | backend/app/spec/dbml_import.py:113-123 | and one of two names as table and column in the schema public |
| `DbmlInputs.ReferenceLineRead` | backend/app/spec/dbml_import.py:182-191 | a reference line adds one reference, from left to right for `>` and `-` and from right to left for `<` |
| `DbmlInputs.InlineColumnRead` | backend/app/spec/dbml_import.py:203-233 | a column with such a setting adds the column and one reference: the column is the child for `>` and `-`, the parent for `<` |
| `DbmlInputs.InlineFlags` | backend/app/spec/dbml_import.py:207-224 | for plain names, what else the setting makes of the column: a primary key if and only if a name in it is `pk`, and nothing more |
| `DbmlInputs.ReferencesRead` | backend/app/spec/dbml_import.py:126-251 | any tables and behind them any references between plain or quoted paths: the document is read as these tables and exactly the foreign keys between known ones, in the right direction, named after their child |
| `DbmlInputs.InlineRead` | backend/app/spec/dbml_import.py:126-251 | any tables and behind them a table with such a column: these tables, and one foreign key if the table it names is known |
| `DbmlInputs.ColumnAdded` | backend/app/spec/dbml_import.py:203-224 | a column with any settings: key, nullability and default are found exactly where the words occur, in lower case |
| `DbmlInputs.PrimaryKeyIff` | backend/app/spec/dbml_import.py:209-209 | `pk` counts as a word of its own, `primary` and `key` with blanks between them anywhere |
| `DbmlBlocks.BlockOpens` | backend/app/spec/dbml_import.py:149-156 | in any case of letters, Project, Enum, TableGroup and Note open such a block |
| `DbmlBlocks.BlockSkipped` | backend/app/spec/dbml_import.py:149-156 | an ignored block leaves nothing behind up to the line that closes it, whatever is in it |
| `DbmlBlocks.BlockInFront` | backend/app/spec/dbml_import.py:149-156 | a document with such a block in front is read as without it |
| `DbmlBlocks.BraceBelowSwallows` | backend/app/spec/dbml_import.py:149-156 | with its brace on the next line the block never ends |
| `DbmlBlocks.NothingRead` | backend/app/spec/dbml_import.py:149-156 | a document that begins so is read as empty |
| `DbmlBlocks.IndexListEnds` | backend/app/spec/dbml_import.py:178-201 | an index list adds nothing; the line that closes it ends the table too if it begins with the brace |
| `DbmlBlocks.ColumnBehindIsLost` | backend/app/spec/dbml_import.py:178-201 | a column behind such a list is not read |
| `DbmlBlocks.PlainHeader` | backend/app/spec/dbml_import.py:42-110 | a header with a plain name, perhaps with an alias and a brace, is one of the schema public |
| `DbmlBlocks.QuotedHeader` | backend/app/spec/dbml_import.py:42-110 | and so with a quoted name |

## Left out

- SQL text: statements are values with a meaning; quoting and layout of the migration's text are not modelled, nor are
  statement terminators, headers and the marker's text.
- Type mapping between dialects: a dialect carries a rendering function for types, the identity where the theorems
  about plain types need it.
- Flattened keys such as `schema.table` are pairs, so two tables cannot collide by a dot in a name.
- The abstract database checks what is named in `Migration.Exec`: it does not require foreign keys to point at unique
  columns, does not look at rows, and refuses DROP COLUMN while any foreign key uses the column, where PostgreSQL drops
  a foreign key along with a column on its referencing side.
- MigrationReachesTarget: primary keys of surviving tables, table comments and the names of foreign keys are not part
  of the target reached, because the generator only notes or ignores them; `MigrationLeaves` says what they become.
- Sccs: the search's local variables are one record value, and the sorted iteration order is any enumeration of a set.
- ParseDbml: its local variables are one record value; regular expressions are written out as scans over ASCII text.
- RoundTrip: titles are a plain schema and a plain name, names hold no quotes, line breaks or `//`, types and comments
  are those that are read back as stated above, composite foreign keys have plain names (and do not come back), lines
  are within the importer's limit; the importer never keeps comments, and the list `constraints`, which repeats keys
  and foreign keys as SQL text, is not modelled.
- ThereAndBackIff: both snapshots come from the same dialect, so both runs render types alike.
- AdviceSafeIff: definitions list their columns quoted or bare, without sort directions, operator classes or INCLUDE;
  the reader passes over what follows a name.
- ReadColumns: lower-casing and blanks are those of ASCII.
- StepKeeps: in the job queue a transaction commits or aborts in one step, job rows are values, and project deletion,
  metrics, log output and the decryption of connection strings are not modelled.
- RunInv: is about safety; nothing is claimed about a job ever being taken up.
- Hit: the lock is not modelled because the method does not suspend while it holds it; times are real numbers.
- HistoryOk: the clock does not run backwards, and the discovery document is fetched before the modelled part.
- Recursion limits, memory limits, log output and error texts beyond those named.
- Heuristic linters, statistics, document generators, authentication beyond the key cache, and the user interface.
