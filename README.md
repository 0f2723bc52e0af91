# pgmigrate: a Dafny model of the `Migrate` engine

pgmigrate applies numbered SQL migration files to a PostgreSQL database.
A migrations directory holds files named `<version>_<description>.up.sql`
and `<version>_<description>.down.sql`. The database keeps one row in
`pg_migrations` with the current version and a dirty flag.

This project models the `Migrate` object of `pgmigrate.go`:

- its settings: the step limit, the skip list and the goto version;
- the run state it keeps between calls: the version, the dirty flag and
  whether the migrations table exists;
- the operations `Step`, `Skip`, `Up`, `Down`, `Goto` and `Version`, and the
  internal `prepare`, `runUp` / `runDown`, `getFilesUp` / `getFilesDown`,
  `migrateFromFile` and `complete`;
- the helpers `fileVersion`, `maxStep` and `skipStep`, with `strconv.Atoi`
  and `strings.Contains` written out.

The database behind the `DBWorker` interface is a class `Backend.Database`.
It holds an abstract store: whether the table exists, the row, and the
scripts executed so far. Which calls fail is fixed when it is built. The
directory is a value: whether it can be listed, and its entries in listing
order, each with its content.

Modules, one file each:

- `Errors`: error kinds, `Option`, `Result`.
- `Decimal`: `strconv.Atoi` for 64-bit `int`, with the left-to-right digit loop of `strconv.ParseUint` that decides between a syntax and a range error, and decimal rendering.
- `FileNames`: the prefix before the first `_`, `strings.Contains`, `fileVersion`.
- `Catalog`: directory entries and the candidate list of `getFilesUp` / `getFilesDown`.
- `Planning`: `maxStep`, `skipStep`, and the order `sort.Slice` produces.
- `Backend`: the `DBWorker` calls over an abstract store.
- `Engine`: specification functions for one file (`Migration`), the
  visiting loop (`Run`) and the bookkeeping of `complete` (`Persist`), with
  lemmas about them.
- `Migrator`: the class `Migrate`, whose methods are proved against `Engine`.
- `Scenarios`: worked examples over a directory with versions 1 to 3.

Behaviour of the code that the model keeps on purpose:

- An empty file, or one that opens but cannot be read, counts as a success
  and advances the version.
- The sort is not stable. So a run is specified for every ordered
  permutation of the candidates, and the methods return that order as a
  ghost value.
- `runUp` / `runDown` do not return the error of a failed file. They set the
  dirty flag, stop, and still return what `complete` returns.
- The dirty flag is never cleared by a later successful run of the same
  object. The stored dirty flag is read by `prepare` and dropped.
- When `CurrentVersion` fails, the adapters return 0, and `prepare` and
  `Goto` store that 0 in `m.version` before they return.
- `Goto` compares the target with the stored version before `prepare`
  runs again.

## Model

| member | source | states |
|---|---|---|
| Decimal.Atoi | pgmigrate.go:315 | A numeral is accepted only as an optional sign followed by digits only, with a value inside the 64-bit range; every failure is a syntax or a range error |
| Decimal.ScanUint | pgmigrate.go:315 | The digit loop accepts digits only; every failure is a syntax or a range error |
| Decimal.ScanDigits | pgmigrate.go:315 | On a run of digits the loop gives the numeral's value, or a range error exactly when that value exceeds the largest `uint64` |
| Decimal.ScanConcat | pgmigrate.go:315 | The loop stops at the first problem: a concatenation is scanned as its first part, then the rest from where the first part left off |
| Decimal.AtoiOverflowFirst | pgmigrate.go:315 | A numeral already past the largest `uint64` is a range error whatever characters follow it |
| Decimal.AtoiDigits | pgmigrate.go:315-318 | A digit string reads as its value when that fits an int and is a range error otherwise; with a minus sign the same holds down to the minimum int; no digits is a syntax error |
| Decimal.AtoiShow | pgmigrate.go:315 | Every 64-bit int written in decimal reads back as itself |
| Decimal.AtoiPlus | pgmigrate.go:315 | A leading plus sign does not change the value read |
| FileNames.Prefix | pgmigrate.go:313 | The first piece of splitting a name on `_`: a prefix of the name with no underscore, followed by an underscore unless it is the whole name |
| FileNames.Contains | pgmigrate.go:261 | True exactly when the marker occurs at some position of the name |
| FileNames.FileVersion | pgmigrate.go:312-322 | An empty prefix gives version 0; otherwise the Atoi value of the prefix, or a bad-file-name error when Atoi fails; versions stay in the int range |
| FileNames.PrefixBeforeUnderscore | pgmigrate.go:313 | The prefix of `p_rest` is `p` when `p` has no underscore |
| FileNames.VersionIgnoresDescription | pgmigrate.go:312-322 | Only the text before the first underscore decides the version |
| FileNames.EmptyPrefixIsZero | pgmigrate.go:314-321 | A name starting with an underscore has version 0 |
| FileNames.NamedVersion | pgmigrate.go:312-320 | A name `<v>_<description>` has version `v` for every int `v` |
| FileNames.NonNumericPrefixRejected | pgmigrate.go:315-318 | A prefix with a character that is neither a digit nor a leading sign is rejected |
| Catalog.Candidate | pgmigrate.go:261-277 | An entry contributes a file exactly when its name has the marker, its version parses and lies in the window, and then the file carries that name and version |
| Catalog.Candidates | pgmigrate.go:259-279 | No more files than entries, and every listed file has the marker, a parsing version equal to its own, and a version in the window |
| Catalog.CandidatesSnoc | pgmigrate.go:260-277 | Looking at one more entry appends what it contributes, so the list keeps directory order |
| Catalog.CandidatesMembers | pgmigrate.go:260-277 | A file is in the list exactly when some entry contributes it |
| Catalog.UpFilesExactly | pgmigrate.go:254-280 | The up list holds exactly the listed `.up.sql` names whose version parses, is above the current version and is not above a set goto version |
| Catalog.DownFilesExactly | pgmigrate.go:283-309 | The down list holds exactly the listed `.down.sql` names whose version parses, is at or below the current version and is above a set goto version |
| Catalog.UnparsableNeverListed | pgmigrate.go:262-266 | A name whose version does not parse is never listed, and listing does not fail for it |
| Planning.MaxStep | pgmigrate.go:246-251 | The result is the count or the step; a step of 0 means all files; a non-negative step never exceeds the count, and a positive step bounds the result |
| Planning.SkipStep | pgmigrate.go:198-205 | True exactly when the version is in the skip list |
| Planning.Sort | pgmigrate.go:146-148 | The result is ordered (ascending up, descending down) and a permutation of the input |
| Planning.OrderedPermutationUnique | pgmigrate.go:146-148 | With distinct versions, every ordered permutation is the same sequence, so the unstable sort decides nothing |
| Backend.Database.constructor | pgmigrate.go:43-51 | A database with the given store, schema flag and failing calls |
| Backend.Database.CheckSchemaExist | sql.go:96-103 | A failure gives false and an error; otherwise whether the schema exists |
| Backend.Database.CheckMigrateTableExist | sql.go:106-113 | A failure gives false and an error; otherwise whether the table exists |
| Backend.Database.CurrentVersion | sql.go:135-143 | The stored version and dirty flag, or 0, false and an error |
| Backend.Database.CreateMigrateTable | sql.go:116-122 | Creates the table with the row (0, false), or fails and changes nothing |
| Backend.Database.UpdateMigrateTable | pgmigrate.go:49 | Overwrites the row, or fails without a table or on error and changes nothing |
| Backend.Database.ExecMigration | sql.go:87-93 | Executes the script, or fails and changes nothing |
| Engine.Open | pgmigrate.go:326-329 | A name no entry carries fails to open; whatever else it gives is the content of an entry with that name |
| Engine.Reached | pgmigrate.go:161 | After a success up (line 161; line 193 for down), the file's version is no longer pending up and is pending down; after a success down, the reverse; the recorded version is the file's own or one below |
| Engine.Run | pgmigrate.go:150-162 | A run only appends to the executed scripts, at most one per file, and never clears the dirty flag |
| Engine.OpenFirstMatch | pgmigrate.go:326 | Opening a listed name gives the content of the first entry with that name |
| Engine.Migration | pgmigrate.go:325-348 | An open failure fails; a read failure or empty file is a success without executing; otherwise the content is executed and fails exactly when the database rejects it |
| Engine.RunConcat | pgmigrate.go:150-162 | Visiting two plans in turn is visiting their concatenation, when the first has no failure |
| Engine.RunWithoutFailure | pgmigrate.go:150-162 | Without failures the version is that reached by the last file not skipped (its own version up, one less down), the dirty flag is kept, and the scripts run in plan order |
| Engine.RunStopsAtFirstFailure | pgmigrate.go:155-160 | At the first failing file the run sets dirty, keeps the version and scripts of the files before it, and never attempts the files after it |
| Engine.RunDirty | pgmigrate.go:155-160 | A run ends dirty exactly when it started dirty or some attempted file failed |
| Engine.SkippedFilesChangeNothing | pgmigrate.go:151-154 | Files whose versions are all skipped change nothing |
| Engine.Persist | pgmigrate.go:226-243 | Schema check, table creation when missing, then the row update; each step's failure returns its own error with the store as the earlier steps left it, and the executed scripts stay; success exactly when no step fails, and then the row holds the run's version and dirty flag |
| Migrator.Migrate.constructor | sql.go:65-70 | Every setting and the run state start at zero values |
| Migrator.Migrate.Step | pgmigrate.go:72-75 | Sets the step limit and returns the same object |
| Migrator.Migrate.Skip | pgmigrate.go:123-126 | Sets the skip list and returns the same object |
| Migrator.Migrate.Loaded | pgmigrate.go:210-222 | The version is kept when the table check fails or there is no table; otherwise it is the stored version, or 0 when reading it fails |
| Migrator.Migrate.Prepare | pgmigrate.go:207-224 | Records whether the table exists; loads the stored version when it does (0 when that read fails); succeeds exactly when neither read fails; settings and dirty flag untouched |
| Migrator.Migrate.GetFiles | pgmigrate.go:254-309 | A listing failure is returned; otherwise the candidate list of `Catalog.Candidates` for the direction, current version and goto version |
| Migrator.Migrate.MigrateFromFile | pgmigrate.go:325-348 | The database changes as `Engine.Migration` says: the script is appended on success, nothing changes otherwise, and the error is the one `Migration` names |
| Migrator.Migrate.Complete | pgmigrate.go:226-243 | The new store and the error are those of `Engine.Persist` |
| Migrator.Migrate.Visit | pgmigrate.go:150-162 | The version, dirty flag and executed scripts after the loop are those of `Engine.Run` over the plan; only the executed scripts of the store change |
| Migrator.Migrate.RunMigrations | pgmigrate.go:134-196 | A listing failure changes nothing; no candidates changes nothing; otherwise the plan is an ordered permutation of the candidates cut to `MaxStep`, the state is `Run` of it and the store and error are `Persist` of that |
| Migrator.Migrate.PrepareAndRun | pgmigrate.go:82 | A failed `prepare` ends with an error before anything is listed or written; otherwise the run starts from the version `prepare` loaded |
| Migrator.Migrate.Up | pgmigrate.go:78-83 | `prepare` then the up run, as `PrepareAndRun` states |
| Migrator.Migrate.Down | pgmigrate.go:86-91 | `prepare` then the down run, as `PrepareAndRun` states |
| Migrator.Migrate.Goto | pgmigrate.go:94-120 | Sets the goto version; a failed read returns its error; an equal target does nothing; a higher one runs up and a lower one runs down from the stored version |
| Migrator.Migrate.Version | pgmigrate.go:129-132 | Returns the version `prepare` leaves, whatever `prepare` reports |
| Scenarios.NamesExist | pgmigrate.go:312-320 | Names `<v>_<description>.up.sql` / `.down.sql` carry their marker and version `v` |
| Scenarios.UpListing | pgmigrate.go:254-280 | For a directory listing versions 2, a bad name, 1, 3, the up list is 2, 1, 3 filtered by the window |
| Scenarios.UpFromZero | pgmigrate.go:260-277 | From version 0 the up list is 2, 1, 3, and the bad name is dropped |
| Scenarios.UpPlanOrder | pgmigrate.go:146-148 | Every order the sort may give that list is 1, 2, 3 |
| Scenarios.UpAllSucceed | pgmigrate.go:150-162 | Running 1, 2, 3 records version 3, clean, with the three scripts in order |
| Scenarios.UpOneStep | pgmigrate.go:144-161 | A step of 1 runs version 1 only |
| Scenarios.UpSkipTwo | pgmigrate.go:151-154 | Skipping 2 runs 1 and 3 and records version 3 |
| Scenarios.UpFailAtTwo | pgmigrate.go:155-160 | A failure at 2 leaves version 1, dirty, and 3 is not attempted |
| Scenarios.UpWindows | pgmigrate.go:267-271 | Going to 2 from 0 lists 2 and 1; from 3 nothing is pending |
| Scenarios.DownListing | pgmigrate.go:283-309 | For down files listed 1, 3, 2 the down list is that order filtered by the window |
| Scenarios.DownFromThree | pgmigrate.go:296-304 | From version 3 with no goto version every down file is listed |
| Scenarios.DownToZero | pgmigrate.go:182-194 | Undoing 3, 2, 1 records version 0 with the three scripts in order |
| Scenarios.DownToOne | pgmigrate.go:296-300 | Going to 1 from 3 lists 3 and 2 only |

## Left out

- Console output is not modelled: the start and end banners, the notices, and the `Now version` line of `complete`. `CurrentSchema` is called only for that output, so it is left out too.
- The SQL text of the statements, the PostgreSQL drivers (`sql.go`, `sqlx.go`, `pgx.go`) and the constructors that open a connection are left out. The database is an abstract store behind the `DBWorker` calls.
- The file system is a value: a listable flag and the entries in listing order. The path join `m.Path + "/" + name` is left out, and a file is opened by its listed name.
- `ioutil.ReadDir` returns entries sorted by file name. The model does not assume that order: every property holds for every listing order. The worked examples use orders (2, a bad name, 1, 3 and 1, 3, 2) that sorting by name gives only for unusual names.
- A failing call is fixed per kind when the database is built, and a script fails by its content. Failures that change from one call to the next are not modelled.
- Migrator.Migrate.PrepareAndRun: a failed `prepare` returns a nil `*Migrate`, and calling `runUp` on it panics in Go. The model ends the call with the error `NotPrepared` instead.
- Migrator.Migrate.RunMigrations: requires a non-negative step limit. With a negative step, `maxStep` returns it and the slice `files[0:step]` panics. `Up`, `Down`, `Goto` and `PrepareAndRun` inherit this requirement.
- Planning.Sort: a sequence function, not the in-place `sort.Slice`. The runs are stated for every ordered permutation of the candidates, so the particular order of equal versions is not modelled.
- Backend.Database.CreateMigrateTable: the table is created with a single row. A second creation resets that row; it does not insert another row.
- Backend.Database.UpdateMigrateTable: the row is overwritten with the version and the dirty flag, as `DBWorker` declares. The `Sql` adapter at sql.go:125-132 takes only the version, and that adapter is not part of this model.
- Integer width is not modelled beyond `fileVersion`. Versions read from names are 64-bit by construction, and the `version - 1` of a down run is not wrapped.
