# All-5-Letter-Sequences, modelled in Dafny

The repository keeps a `found` flag for every five-letter lowercase
sequence. The flags live in 26 SQLite files, one per first letter, called
partitions here. Each file holds 26 tables, one per two-letter prefix. Each
table maps a sequence, its primary key, to a boolean.

This project models that store and the code that builds, reads and updates
it:

- create.py makes the 676 tables;
- populate.py inserts all 26³ suffixes of every prefix with INSERT OR IGNORE;
- database.py holds the point lookup, the one-table batch update, the line
  transform for sequence files, the not-found extraction and per-partition
  statistics;
- processing.py groups sequences into 26 buckets and updates the store per
  bucket and per letter;
- tools.py holds `DatabaseManager` with its point lookup, point update,
  bulk update and `main`;
- `__main__.py` holds `split_array` and `get_all_stats`.

The store is `map<char, map<string, map<string, bool>>>`: partition letter,
then table name, then sequence and flag. A `Store` class holds it wherever
the source changes it in place. The SQLite errors become an `Error` value:

- `LengthNotFive`: the ValueError raised on a bad length;
- `NoSuchTable`: the OperationalError for a missing table;
- `IndexOutOfRange`: the IndexError of the bucketing;
- `ZeroStep`: the ValueError of `range(0, n, 0)`.

Every operation that commits several times returns where it stopped and
what had been committed by then (`Step`).

Modules, one file each:

| module | file |
|---|---|
| `Text` | text.dfy: `chr`/`ord`, `str.lower`, `str.strip`, `s[:2]` |
| `Shards` | shards.dfy: the store, UPDATE and INSERT OR IGNORE on one table |
| `Database` | database.dfy |
| `Processing` | processing.dfy |
| `Tools` | tools.dfy |
| `App` | app.dfy: `__main__.py` |
| `Create` | create.dfy |
| `Populate` | populate.dfy |

Points where the code behaves in ways that are easy to misread:

- **Bucketing.** The code does not check the alphabet before bucketing.
  `grouped[ord(c) - 97]` runs after lowering, so a character with code 91
  to 96 gives a negative index. Python wraps that index into slots 20 to 25
  (`Processing.SlotWraps`). Any other non-letter raises IndexError, and the
  model returns `IndexOutOfRange` before touching the store. Nothing
  excludes or reports the bad member: the code has no such step.
- **Populated totals.** After create.py and populate.py on an empty store,
  `get_statistics` counts 26 · 26³ = 456976 rows in each partition, and
  `get_all_stats` counts 676 · 26³ = 11881376 rows overall
  (`App.FreshTotals`).
- **Partial commits.** `update_sequences` commits per call, `process_batch`
  per bucket, and `bulk_set_is_found` per sequence. A failure keeps what
  was committed before it.

## Model

| member | source | states |
|---|---|---|
| Text.Lower | database.py:16 | `str.lower` keeps the length and lowers each character on its own |
| Text.LowerIdempotent | database.py:16 | lowering twice is lowering once |
| Text.LowerAll | database.py:38 | `[s.lower() for s in ss]`: same length, each element lowered |
| Text.Take2 | database.py:33 | `s[:2]` is the first two characters, or the whole string when it is shorter |
| Text.Strip | database.py:46 | `str.strip()` leaves no white space at either end and is never longer than its input |
| Text.StripSlice | database.py:46 | `s.strip()` is the slice `s[i:j]` between the leading and the trailing run of white space; everything it drops is white space |
| Text.StripEmptyIffBlank | database.py:46 | `line.strip()` is empty exactly when every character is white space |
| Text.StripTrimmed | database.py:46 | a string without white space at either end is its own strip |
| Shards.SetRows | database.py:34-38 | the UPDATE keeps the table's keys and sets the flag of exactly the listed keys that have a row |
| Shards.InsertOrIgnore | populate.py:20 | every existing row is kept with its flag, and every row of the result either existed or is one of the inserted keys |
| Shards.InsertOrIgnoreRows | populate.py:20 | INSERT OR IGNORE adds exactly the missing keys with `found` false and keeps every existing row and its flag |
| Shards.InsertOrIgnoreIdempotent | populate.py:20 | the same INSERT OR IGNORE twice equals once |
| Shards.InsertOrIgnoreIntoEmpty | populate.py:20 | an empty table ends with one row per distinct key |
| Shards.InsertRows | populate.py:20 | `executemany`, one statement per key in order, equals the set-level INSERT OR IGNORE |
| Database.GetIsFound | database.py:15-26 | fails with the length error exactly when the length is not 5, and with a missing table exactly when table `s[:2]` of partition `s[0]` is absent |
| Database.GetIsFoundRow | database.py:20-26 | a successful lookup returns the stored flag when the lowered sequence has a row, and None otherwise |
| Database.GetIsFoundReadsOneTable | database.py:20-26 | two stores that agree on table `s[:2]` of partition `s[0]` give the same answer |
| Database.UpdateTarget | database.py:33 | the target table is `sequences[0][:2]`: its first two characters, or all of it when shorter, each lowered as SQLite's case-blind name match reads it |
| Database.Updated | database.py:29-39 | empty input leaves the store as it is; otherwise it fails exactly when table `sequences[0][:2]` is missing from the partition |
| Database.UpdateSequences | database.py:29-39 | the loop of UPDATEs leaves exactly `Updated`'s store and result; on an error the store is unchanged |
| Database.UpdateKeepsRows | database.py:33-38 | an update adds or removes no partition, table or row |
| Database.UpdateEffect | database.py:33-39 | a row's flag becomes `isFound` iff it is a lowered input in the target table of the partition; every other row keeps its flag |
| Database.UpdateThenGet | database.py:15-39 | after the update, an input sequence that had a row reads back `isFound` |
| Database.UpdateLeavesOthers | database.py:33-39 | a sequence not among the lowered inputs reads the same before and after |
| Database.NormaliseLine | database.py:46 | one line gives at most one sequence |
| Database.NormaliseLines | database.py:46 | the transform never yields more sequences than lines |
| Database.NormaliseOneLine | database.py:46 | a blank line is dropped; any other line becomes its stripped, lowered text |
| Database.NormaliseAppend | database.py:46 | the transform works line by line, in input order |
| Database.NormaliseLinesNormalised | database.py:46 | every sequence handed on is non-empty, stripped and lowercase |
| Database.NormalisedFixed | database.py:46 | normalised lines pass through unchanged |
| Database.NormaliseIdempotent | database.py:46 | normalising twice is normalising once |
| Database.NotFoundSequences | database.py:52-59 | fails exactly when table `letter + second`, matched ignoring ASCII case, is missing; otherwise returns exactly the unfound rows of table `letter + second`, each once, as many as rows minus found rows |
| Database.FoundCount | database.py:70 | the found count never exceeds the row count |
| Database.NotFoundCount | database.py:52-59 | unfound and found rows share out the table |
| Database.TotalUpToZero | database.py:67-72 | the summed `COUNT(*)` over the tables is 0 exactly when every one of them is empty |
| Database.FoundWithinTotal | database.py:67-73 | summed over the tables, found never exceeds total |
| Database.Percentage | database.py:75 | 0 when the total is 0; between 0 and 100 when found ≤ total |
| Database.GetStatistics | database.py:62-76 | succeeds iff all 26 tables `letter + c` exist, matched ignoring ASCII case; total and found are the sums over the 26 tables; found ≤ total; the percentage is 0 for no rows |
| Processing.Slot | processing.py:17 | a slot, when there is one, is below 26 and the string is long enough to index |
| Processing.SlotCases | processing.py:17 | `grouped[ord(c) - 97]` has a slot exactly when the position exists and the code is 71 to 122; a lowercase letter goes to code − 97, and codes 71 to 96 wrap, as a negative Python index does, to code − 71 |
| Processing.SlotOfLowered | processing.py:58-59 | after lowering, a character has a slot exactly when it is a lowercase letter or one of the codes 91 to 96, and those six land in slots 20 to 25 |
| Processing.SlotOfLetter | processing.py:17 | on a lowercase letter, slot i is exactly letter `chr(97 + i)` |
| Processing.SlotWraps | processing.py:17 | worked cases: code 93 lands in slot 22 (`'w'`), and `'{'` raises |
| Processing.Bucket | processing.py:13-17 | bucket i holds exactly the inputs of slot i, and no more entries than the input |
| Processing.Buckets | processing.py:13 | there are 26 buckets |
| Processing.GroupByLetter | processing.py:13-17 | raises IndexError iff some lowered input has no slot; otherwise returns the 26 buckets of the lowered input |
| Processing.BucketMembers | processing.py:15-17 | every lowercase member of bucket i has `chr(97 + i)` at the bucketed position |
| Processing.BucketAppend | processing.py:15-17 | bucketing is stable: the bucket of a concatenation is the concatenation of the buckets |
| Processing.BucketsPermutation | processing.py:13-17 | the buckets together are a permutation of the lowered input |
| Processing.ApplyBatches | processing.py:19-23 | the loop over the buckets only ever stops on a missing table, changes no partition other than `letter`, and leaves the store as it is when every remaining bucket is empty |
| Processing.BatchProcessed | processing.py:12-23 | `process_batch` only ever stops on a missing table or the IndexError of the bucketing, and changes no partition other than `letter` |
| Processing.ProcessBatch | processing.py:12-24 | one `update_sequences` per non-empty bucket, in slot order; the store and result are `BatchProcessed`'s |
| Processing.BatchOfNothing | processing.py:19-23 | an empty list makes no update |
| Processing.BatchMarksFound | processing.py:12-23 | when every lowered sequence starts with the partition letter, has a lowercase second letter, and its table exists, the run finishes with exactly the input rows of each table marked found and nothing else changed (without the second-letter condition a bucket's first member can name another table: `a]xyz` lands in bucket 22 and makes `a]` the UPDATE's target) |
| Processing.UpdateRaises | database.py:38 | an update with `True` only raises flags and touches no other partition |
| Processing.BatchRaises | processing.py:12-23 | on any input, `process_batch` adds or removes no row, clears no flag and touches no other partition |
| Processing.ProcessLetter | processing.py:27-32 | `process_letter` is `process_batch` |
| Processing.LettersProcessed | processing.py:62-66 | the loop over the letter groups only ever stops on a missing table or the IndexError, and changes no partition other than the letters from `i` on |
| Processing.SequencesProcessed | processing.py:51-66 | no sequences, no update; a stop is a missing table or the IndexError; partitions not named by a lowercase letter are unchanged |
| Processing.FileProcessed | processing.py:46-66 | `process_single_file` only ever stops on a missing table or the IndexError, and changes no partition other than `a` to `z` |
| Processing.ProcessSingleFile | processing.py:46-66 | reads the normalised lines, then groups and processes them; the store and result are `FileProcessed`'s |
| Processing.ProcessSequences | processing.py:51-66 | groups by first letter, then calls `process_letter(chr(97 + i), group)` for each non-empty group, in order |
| Processing.BlankFile | processing.py:50-53 | a file with only blank lines causes no update |
| Processing.GroupLetter | processing.py:62-66 | each group is processed under `chr(97 + i)`, the first letter of each of its lowercase members |
| Processing.FileRaises | processing.py:46-66 | whatever the file holds, no row is added or removed and no flag is cleared |
| Tools.FoundSet | tools.py:42-54 | fails with the length error when the length is not 5, before lowering, and otherwise exactly when table `s[:2]` is missing |
| Tools.FoundSetIsUpdate | tools.py:42-54 | `set_is_found(s)` equals `update_sequences(s[0], [s])` |
| Tools.SetThenGet | tools.py:27-54 | after `set_is_found(s, b)`, the lookup of `s` reads `b` when the row existed and still none when it did not |
| Tools.SetLeavesOthers | tools.py:46-54 | every other sequence reads the same before and after |
| Tools.SetKeepsRows | tools.py:46-54 | `set_is_found` adds or removes no partition, table or row |
| Tools.BulkSet | tools.py:56-58 | a bulk update only ever stops on the length error or a missing table |
| Tools.BulkSetKeepsRows | tools.py:56-58 | complete or stopped, a bulk update adds or removes no partition, table or row |
| Tools.BulkSetAppend | tools.py:56-58 | a bulk update of `a + b` is that of `a` then that of `b`, unless `a` stopped, which keeps `a`'s committed updates |
| Tools.MainRaises | tools.py:61-68 | `main` strips its literal to `''` and stops on the length error with the store unchanged |
| Tools.DatabaseManager.GetIsFound | tools.py:27-40 | checks the length before lowering; fails exactly on a bad length or a missing table; otherwise the row's flag or None |
| Tools.DatabaseManager.GetIsFoundAgrees | tools.py:27-40 | the manager's lookup equals `database.get_is_found` on every input |
| Tools.DatabaseManager.SetIsFound | tools.py:42-54 | on an error the store is unchanged; otherwise the store is `FoundSet`'s |
| Tools.DatabaseManager.BulkSetIsFound | tools.py:56-58 | `set_is_found(s.strip())` for each `s` in order; the first error stops the loop, keeping earlier updates |
| App.SplitArray | __main__.py:26-27 | fails iff the step is 0; a negative step gives no chunks |
| App.Chunks | __main__.py:27 | no chunks exactly when the list is empty, and never more chunks than elements |
| App.ChunksFlatten | __main__.py:27 | the chunks concatenate back to the list |
| App.ChunkSizes | __main__.py:27 | every chunk is non-empty and at most n long; all but the last are exactly n long |
| App.ChunkCount | __main__.py:27 | m chunks hold the list and m − 1 would not |
| App.ChunkCountDiv | __main__.py:27 | the chunk count is `(len(a) + n - 1) // n`, the length of `range(0, len(a), n)` |
| App.ChunkAt | __main__.py:27 | chunk k is `a[k*n : k*n + n]`, clipped at the end |
| App.SplitNothing | __main__.py:27 | an empty list gives no chunks for any non-zero step |
| App.OverallTotalZero | __main__.py:40-44 | the overall total is 0 exactly when every partition's total is 0 |
| App.OverallFoundWithinTotal | __main__.py:44-45 | overall found never exceeds overall total |
| App.GetAllStats | __main__.py:37-49 | succeeds iff every partition has its 26 tables; totals and founds are the sums of the per-partition statistics; found ≤ total; the percentage is 0 for no rows |
| App.FreshTable | populate.py:9-20 | after create.py and populate.py on an empty store, every table holds 26³ rows |
| App.FreshTotals | database.py:62-76 | on that store every partition counts 26 · 26³ rows and the whole store 26 · 26 · 26³ |
| Create.SchemaNames | create.py:13-14 | the names are exactly the two-letter names `first + c` for the letters below j |
| Create.CreatedPartition | create.py:13-20 | every existing table stays with its rows and flags; each table added is one of the first j names of the partition and is empty |
| Create.CreateTables | create.py:13-20 | the 26 statements add each missing table empty and keep existing ones |
| Create.Created | create.py:8-20 | every partition and every table stays; a partition added is one named by a lowercase letter |
| Create.CreateAll | create.py:8-23 | the nested loop leaves exactly `Created`'s store |
| Create.CreatedHasAllTables | create.py:8-20 | afterwards all 676 tables exist |
| Create.CreatedKeepsTables | create.py:15-16 | an existing table keeps all its rows and flags |
| Create.CreatedNewTables | create.py:15-20 | an added table is one of the 26 of a partition `a`..`z`, and it is empty |
| Create.CreatedPartitionIdempotent | create.py:15 | creating a partition's tables twice equals once |
| Create.CreatedIdempotent | create.py:8-23 | running create.py twice equals once |
| Populate.Suffix | populate.py:17 | the k-th product tuple is three lowercase letters |
| Populate.SuffixRoundTrip | populate.py:17 | position to tuple to position is the identity |
| Populate.IndexRoundTrip | populate.py:17 | tuple to position to tuple is the identity |
| Populate.SuffixIndexOrder | populate.py:17 | a smaller position iff a smaller string in dictionary order |
| Populate.SuffixOrdered | populate.py:17-18 | generation follows dictionary order over the last three letters |
| Populate.Generated | populate.py:17-18 | the list has 26³ entries, entry k being `first + second + Suffix(k)` |
| Populate.GeneratedShape | populate.py:18 | each entry has length 5, starts with `first + second`, and ends in three lowercase letters |
| Populate.GeneratedDistinct | populate.py:17-18 | the entries are pairwise distinct |
| Populate.GeneratedComplete | populate.py:17-18 | a string is generated iff it is a five-letter lowercase sequence of the prefix |
| Populate.PopulatedTables | populate.py:14-20 | the partition keeps exactly its table names, and a table not named `first` + letter is untouched |
| Populate.PopulateTables | populate.py:14-20 | succeeds iff all 26 tables exist, and then every table has had its INSERT OR IGNORE |
| Populate.PopulateAll | populate.py:9-23 | the loop leaves exactly `PopulateFrom`'s store and result, committing per partition |
| Populate.PopulateFrom | populate.py:9-23 | a run that stops stops on a missing table |
| Populate.PopulateFromDone | populate.py:9-23 | the run from partition i finishes iff every later partition has its tables, and then everything is populated |
| Populate.PopulateOutcome | populate.py:9-23 | the run finishes iff all 676 tables exist, and then every partition is populated |
| Populate.PopulatedTable | populate.py:20 | a table gains exactly its missing sequences, unfound, and keeps its rows and flags |
| Populate.Populated | populate.py:9-23 | the populated store has the same partitions, and those not named by a lowercase letter are untouched |
| Populate.PopulatedSameTables | populate.py:14-20 | no partition or table is added, and tables outside the 676 are untouched |
| Populate.PopulatedRows | populate.py:9-20 | the same, stated on the whole store |
| Populate.PopulatedComplete | populate.py:9-20 | afterwards every lowercase five-letter sequence is a row of its table |
| Populate.PopulatedEmptyTable | populate.py:14-20 | a table that started empty ends with exactly 26³ rows |
| Populate.PopulatedTablesIdempotent | populate.py:20 | populating a partition twice equals once |
| Populate.PopulateIdempotent | populate.py:9-23 | populating the store twice equals once |
| Populate.PopulatedKeepsAllTables | populate.py:9-23 | populating keeps all 676 tables |
| Populate.PopulateTwice | populate.py:9-23 | a second run finishes and leaves the store as the first left it |
| Populate.CreateThenPopulate | populate.py:9-23 | after create.py, populate.py always finishes |

## Left out

- SQLite itself: connections, cursors, file paths, `os.path.join` and the
  connection lifecycle. The store is a map, and `sqlite3.connect`
  creating a missing file is modelled as a missing partition reading as
  empty.
- Transaction details beyond the commit points. Each `update_sequences`
  and `set_is_found` call commits as a whole. populate.py commits per
  partition and create.py once per partition.
- File reading in `get_sequences_from_file`: `open`, and the
  FileNotFoundError branch that returns `[]`. The file's lines are a
  parameter; only the line transform is modelled.
- `process_directory_by_letter` and `process_everything`: directory
  walking over files, which is I/O.
- `copy_for_reviving`: clipboard and template formatting.
- `logging`, `time()`, dotenv and `main` in `__main__.py`: output and
  timing only.
- `Tools.MainRaises`: `str.split` is not modelled in general. The lemma
  covers the one literal `main` passes: it strips to `''`, so `split('\n')`
  gives `['']`.
- `Database.Percentage`: the figure is a `real`, not a rounded float.
- `App.GetAllStats`: the same `real` percentage.
- `Database.GetStatistics`: the same `real` percentage.
- `Database.NotFoundSequences`: the result's order is not modelled, as
  SQLite returns the rows in no promised order. Content and absence of
  duplicates are stated.
- `Text.Lower`: only ASCII letters are lowered. `str.lower` on other
  Unicode letters is not modelled.
- `Database.UpdateTarget`: follows SQLite's matching of quoted table names
  for ASCII letters only. SQLite ignores ASCII case there, so
  `sequences[0][:2]` is lowered before the table is looked up. The model
  assumes that stored table names hold no upper-case ASCII letter, so
  that the lowered name is the stored one. Every store create.py builds
  meets this; a table created by hand as `"AB"` would be found by SQLite
  and not by the model.
- `Database.GetIsFound`, `Database.NotFoundSequences`,
  `Database.GetStatistics`, `Tools.FoundSet`: the same assumption on
  stored table names; each looks its table up under the lowered name.
