# Claims ingestion and change detection, modelled in Dafny

This project models the data pipeline of a small Django application for
insurance claims, together with the rules its web layer applies to those
claims.

Two CSV files feed the pipeline:
- `claim_list_data.csv` holds one claim per row: id, patient, amounts,
  status, insurer and discharge date.
- `claim_detail_data.csv` holds the details of claims: CPT codes and
  denial reasons.

Five loaders turn these rows into records and write them into id-keyed
tables:
- the two `load_claims_data` commands;
- the two `reload_claims_data` commands;
- the stand-alone `database.py` script, which writes into SQLite.

The loaders differ in three ways:
- which row wins when an id repeats;
- what a blank or unreadable cell becomes;
- whether one bad row skips itself or aborts the whole run, and whether
  an aborted run rolls back.

A change detector fingerprints the CSV files. An auto-reload command reloads
the data when the fingerprints change. The web layer adds these rules:
- the CSV exports of a claim;
- the claim list filters;
- flags and notes, with their owner-or-superuser rule;
- the access rule of the middleware;
- the signup validators.

How the model is organised:
- **Records and tables.** Records are datatypes (`Models`). A table is a
  `map` from primary key to record. The application database is the class
  `Models.ClaimDatabase`; its methods are the ORM operations the commands
  and views call. The SQLite database of `database.py` is the class
  `Sqlite.SqliteDatabase`.
- **Batch inserts.** `Bulk` states the two conflict policies once:
  - `bulk_create(ignore_conflicts=True)` keeps the first row of an id;
  - `INSERT OR REPLACE` keeps the last.
- **Loaders and reloaders.** Each loader is a method that loops over the
  rows and is proved against a specification function. Lemmas about that
  function state what the command promises: who wins, what survives, what
  a failure leaves behind.
- **Transactions.** `transaction.atomic` is a snapshot that is restored
  when the block raises (`Reload`). SQLite's uncommitted run is a table
  state that is never written back (`Sqlite`).
- **Change detection.** The monitor's cache is an ordered association
  list, as a Python `dict` iterates. The file system reaches the model as
  a listing of fingerprints, handed in as a parameter.
- **Request handlers.** Each handler is a function from the database and
  the request to the new database and the response. A method over
  `ClaimDatabase` does what the view does and is proved equal to that
  function.

Inputs the model does not compute are parameters:
- file contents, MD5 hashes, `stat` results and the directory listing;
- `timezone.now()`;
- the rows of the SQLite table the older loader reads from.

## Model

Some operations are written as plain functions without a contract of their
own; the lemmas named here state what they do, and the table lists those
lemmas:
- `Middleware.Decide`: `PublicPathsPass`, `DashboardNeedsLogin`, `AdminNeedsStaff`, `OtherPathsPass`, `MorePrivilegeNeverRefused`, `NonStaffUser`.
- `Views.Slug` and `Views.ExportFilename`: `SlugIsShaped`, `SlugOfPlainName`, `SlugDefault`, `SlugWithoutAlnum`, `ExportShape`.
- `Views.NormalizeCpt`: `NormalizeCptNonEmpty`, `NormalizeCptOfCodes`. `Views.ExportOf`: `ExportClaim`, `ExportShape`, `ExportDetailOrder`.
- `Handlers.FlagClaim`: `FlagClaimAddsOpenFlag`, `FlagClaimView`. `Handlers.ResolveFlag` and `Handlers.ResolveFlagAsWritten`: `ResolveIsOneWay`, `ResolveIdempotent`, `NonPostHandlersFail`, `PostHandlersAgree`, `ResolveFlagView`.
- `Handlers.AddNote`: `EmptyNoteAddsNothing`, `AddNoteNeedsText`, `AddNoteKeepsValid`, `AddNoteStores`, `AddNoteStoresStrippedText`, `AddNoteView`. `Handlers.EditNote`: `EditNoteOnlyByOwner`, `EditNoteKeepsIdentity`, `EditNoteView`.
- `Handlers.DeleteNote` and `Handlers.DeleteFlag`: `DeleteNoteOnlyByOwner`, `DeleteFlagOnlyByOwner`, `NonPostHandlersFail`, `PostHandlersAgree`, `DeleteNoteView`, `DeleteFlagView`.
- `Reload.Reloaded` and `Reload.Block`: `BlockValid`, `BadClaimRowRollsBack`, `BadDetailRowRollsBack`, `AppendKeepsExisting`, `OverwriteWithoutFiles`, `OverwriteForgetsOldData`, `MissingFileSkipsTable`, `OverwriteIdempotent`, `AppendIdempotent`, and the method `Reload.Run`.
- `Sqlite.Push` and `Sqlite.Stored`: `LastRowWins`, `LastDetailRowWins`, `MissingFilesTouchNothing`, `BadIdKeepsEverything`, `BadClaimIdKeepsEverything`.
- `LegacyLoad.LoadClaimList` and `LegacyLoad.Load` (corrected): `LoadedClaimIds`, `EverySourceRowCopied`, `FailedQueryEmptiesTable`, and the methods `LoadClaimListData` and `Handle`. `LegacyLoad.LoadClaimListAsWritten`: `UnreadableAmountEmptiesTable`, `EmptyAmountTextAborts`.
- `BackendLoad.LoadClaimList` and `BackendLoad.Load`: `MissingClaimFileEmptiesTable`, `LoadedClaimsFirstWins`, `LoadedClaimsCount`, `NoRollback`, and the methods `LoadClaimListData` and `Handle`.
- `AutoReload.Round`: `ReloadIffChanged`, `StampOnlyAfterReload`, `FailedCheckChangesNothing`, `PrimedRoundIsQuiet`, `VanishedFolderReloads`.
- `Monitor.Changes`: `ChangesIff`, `ChangesDistinct`, `NothingChanged`, `MissingFolderDeletesAll`.
- `Text.ParseInt`: `ParseIntOfIntToString`. `LegacyViews.SummaryOf`: `ExportSummary`, `SummaryColumns`.

| member | source | states |
|---|---|---|
| Monitor.Put | backend/claims/data_monitor.py:36-40 | `hashes[path] = {...}`: afterwards the path maps to the new fingerprint and every other path to what it mapped to before; an existing key keeps its place, a new one goes last, and keys stay distinct |
| Monitor.HashesOf | backend/claims/data_monitor.py:29-41 | the fingerprint dictionary built from the folder's probes has each path at most once |
| Monitor.Hashes | backend/claims/data_monitor.py:29-41 | the same for a listing; a missing folder gives the empty dictionary |
| Monitor.ReadableRecorded | backend/claims/data_monitor.py:33-40 | a file whose read gave a hash is recorded under its path with that hash, modified time and size (unless a later probe of the same path replaces it) |
| Monitor.UnreadableOmitted | backend/claims/data_monitor.py:20-35 | a path none of whose reads gave a hash (`get_file_hash` returned `None`) is not in the dictionary |
| Monitor.GetAllCsvHashes | backend/claims/data_monitor.py:29-41 | the loop over the folder builds exactly the dictionary `Hashes` describes |
| Monitor.ChangedOrNewIff | backend/claims/data_monitor.py:50-61 | the first loop reports a current path exactly when it is new or its hash, modified time or size differs from the stored one |
| Monitor.DeletedIff | backend/claims/data_monitor.py:63-67 | the second loop reports a stored path exactly when it is no longer current |
| Monitor.ChangesIff | backend/claims/data_monitor.py:50-67 | a path is reported exactly when the stored and the current dictionary disagree about it |
| Monitor.ChangesDistinct | backend/claims/data_monitor.py:50-67 | no path is reported twice, and no path is both changed-or-new and deleted |
| Monitor.ChangedOrNewDistinct | backend/claims/data_monitor.py:50-61 | the first loop reports no path twice |
| Monitor.DeletedDistinct | backend/claims/data_monitor.py:63-67 | the second loop reports no path twice |
| Monitor.NothingChanged | backend/claims/data_monitor.py:70-72 | checking against the fingerprints that were just stored reports nothing |
| Monitor.MissingFolderDeletesAll | backend/claims/data_monitor.py:31-67 | without the data folder every stored path is reported deleted, in stored order |
| Monitor.UnreadableReportedDeleted | backend/claims/data_monitor.py:20-67 | a stored file that can no longer be read is reported deleted |
| Monitor.LatestModified | backend/claims/data_monitor.py:74-81 | `None` exactly when there are no files, otherwise the largest modified time of the files |
| Monitor.BaseName | backend/claims/data_monitor.py:93 | `Path(p).name` is the suffix of the path after its last `/`, and holds no `/` |
| Monitor.BaseNameJoin | backend/claims/data_monitor.py:93 | the name of `dir/name` is `name` |
| Monitor.FileStatuses | backend/claims/data_monitor.py:91-98 | one entry per recorded file, in dictionary order, with its name, size and time |
| Monitor.GetDataStatus | backend/claims/data_monitor.py:83-99 | `total_files` is the number of entries of `files`; `last_modified` is `None` exactly when its own listing finds no readable file, otherwise it is the latest modified time of that listing; `files` holds one name, size and time per readable file of the first listing, in listing order |
| Monitor.DataMonitor.constructor | backend/claims/data_monitor.py:46 | the cache starts empty: `cache.get(key, {})` gives `{}` |
| Monitor.DataMonitor.CheckForChanges | backend/claims/data_monitor.py:43-72 | returns the change list of the stored and the current fingerprints, and the current fingerprints, which replace the stored ones |
| AutoReload.ReloadIffChanged | backend/claims/management/commands/auto_reload_data.py:52-77 | the data is reloaded and the stamp set to now exactly when the check reports a change; the fingerprints are replaced either way |
| AutoReload.StampOnlyAfterReload | backend/claims/management/commands/auto_reload_data.py:66-71 | a changed `last_data_reload` is this round's time, and only a round that found changes sets it |
| AutoReload.FailedCheckChangesNothing | backend/claims/management/commands/auto_reload_data.py:79-83 | a check that raises is swallowed and changes neither the fingerprints, the data nor the stamp |
| AutoReload.PrimedRoundIsQuiet | backend/claims/management/commands/auto_reload_data.py:37-50 | after the priming check, a round over unchanged files reloads nothing |
| AutoReload.VanishedFolderReloads | backend/claims/management/commands/auto_reload_data.py:55-71 | when files were stored and the folder is gone, the round reloads and stamps |
| AutoReload.AutoReloader.ReloadData | backend/claims/management/commands/auto_reload_data.py:85-97 | runs the backend load; the database ends as `load_claims_data` leaves it, whether the load succeeded or reported an error |
| AutoReload.AutoReloader.CheckAndReload | backend/claims/management/commands/auto_reload_data.py:52-83 | the monitor, the database and the stamp end as one `Round` says, and `reloaded` holds exactly when changes were found |
| AutoReload.AutoReloader.RunOnce | backend/claims/management/commands/auto_reload_data.py:27-50 | one priming check then one round; with the same files both times nothing is reloaded, and a priming check that raises is reported as a failure (it escapes `handle`) and changes nothing |
| Ingest.Admitted | backend/claims/management/commands/load_claims_data.py:56-99 | the coerced rows in file order without the rows that raise; never more records than rows |
| Ingest.Coerced | backend/claims/management/commands/load_claims_data.py:56-99 | the positions of the rows that coerce, strictly increasing, and every such row's position is there |
| Ingest.AdmittedInOrder | backend/claims/management/commands/load_claims_data.py:56-99 | the `j`-th admitted record is the coercion of the `j`-th row that coerces, so the records keep file order |
| Ingest.AdmittedExactly | backend/claims/management/commands/load_claims_data.py:56-99 | a record is admitted exactly when some row coerces to it |
| Ingest.AdmittedAll | backend/claims/management/commands/load_claims_data.py:56-99 | when no row raises, record `i` is the coercion of row `i` |
| Ingest.Warned | backend/claims/management/commands/load_claims_data.py:96-99 | the warned positions are, in increasing order, exactly the failing rows with an index below the limit |
| Ingest.ParseAll | backend/claims/management/commands/reload_claims_data.py:65-80 | either every row coerced, record `i` from row `i`, or the first row that does not (every row before it coerces) |
| Ingest.ParseAllIsAdmitted | backend/claims/management/commands/reload_claims_data.py:65-80 | all rows parse exactly when none fails, and then the records are those the skipping loop admits |
| Ingest.ParseAllStopsAtError | backend/claims/management/commands/reload_claims_data.py:65-80 | once a prefix parses and the next row fails, the whole run fails at that row |
| Ingest.CollectAdmitted | backend/claims/management/commands/load_claims_data.py:56-99 | the skipping loop builds exactly `Admitted` and warns exactly at `Warned` |
| Ingest.CollectAll | backend/claims/management/commands/reload_claims_data.py:65-80 | the raising loop returns exactly `ParseAll` |
| BackendLoad.ClaimFromRow | backend/claims/management/commands/load_claims_data.py:57-95 | a row raises exactly when its id is present and not an integer; a blank id is 0; missing text is `''`; a blank or unreadable amount is null; a date `strptime` rejects is null |
| BackendLoad.DetailFromRow | backend/claims/management/commands/load_claims_data.py:129-140 | a row raises exactly when its id or claim id is present and not an integer; missing text is `''` |
| BackendLoad.ClaimRowRoundTrip | backend/claims/management/commands/load_claims_data.py:57-95 | a claim of the shape this loader stores, written as a CSV line, is read back as itself |
| BackendLoad.DetailRowRoundTrip | backend/claims/management/commands/load_claims_data.py:129-140 | a detail with text in both optional columns, written as a CSV line, is read back as itself |
| BackendLoad.MissingClaimFileEmptiesTable | backend/claims/management/commands/load_claims_data.py:39-48 | the table is emptied before the file is looked for, so without the file it ends empty, and the cascade takes every flag and note |
| BackendLoad.LoadedClaimsFirstWins | backend/claims/management/commands/load_claims_data.py:101-102 | after a load the table holds exactly the admitted ids, each with the first admitted row of that id |
| BackendLoad.LoadedClaimsCount | backend/claims/management/commands/load_claims_data.py:101-103 | the reported count is the number of admitted rows, which can exceed the number of stored records |
| BackendLoad.NoRollback | backend/claims/management/commands/load_claims_data.py:16-33 | there is no transaction: a detail file that cannot be read leaves the new claims in place and the detail table empty |
| BackendLoad.LoadClaimListData | backend/claims/management/commands/load_claims_data.py:35-105 | the table ends as `LoadClaimList` says, the count is the number of admitted rows, and the warnings are `Warned` with limit 5 |
| BackendLoad.LoadClaimDetailData | backend/claims/management/commands/load_claims_data.py:107-150 | the same for the detail table |
| BackendLoad.Handle | backend/claims/management/commands/load_claims_data.py:16-33 | the database ends as `Load` says, and an error is reported, never raised |
| Reload.BlockValid | backend/claims/management/commands/reload_claims_data.py:54-105 | the reload keeps the database consistent: records keyed by their ids, every flag and note on an existing claim |
| Reload.BadClaimRowRollsBack | backend/claims/management/commands/reload_claims_data.py:54-109 | one claim row whose conversion raises aborts the block, and both tables are left exactly as before |
| Reload.BadDetailRowRollsBack | backend/claims/management/commands/reload_claims_data.py:54-109 | the same for a detail row |
| Reload.AppendKeepsExisting | backend/claims/management/commands/reload_claims_data.py:80 | append mode keeps every existing record unchanged, and every flag and note; a new row whose id is taken is dropped, so the counts never decrease |
| Reload.LoadClaimsKeeps | backend/claims/management/commands/reload_claims_data.py:80 | a claim load that does not raise keeps every record already stored, unchanged, and every flag and note |
| Reload.LoadDetailsKeeps | backend/claims/management/commands/reload_claims_data.py:100 | the same for a detail load |
| Reload.OverwriteWithoutFiles | backend/claims/management/commands/reload_claims_data.py:56-60 | overwrite with neither file present empties both tables, and the cascade empties flags and notes |
| Reload.MissingFileSkipsTable | backend/claims/management/commands/reload_claims_data.py:63-83 | a missing claim file in append mode leaves the claim table as it was |
| Reload.OverwriteForgetsOldData | backend/claims/management/commands/reload_claims_data.py:56-60 | what an overwrite leaves in the two tables does not depend on what they held before |
| Reload.OverwriteIdempotent | backend/claims/management/commands/reload_claims_data.py:54-105 | running the same overwrite twice leaves what running it once does |
| Reload.AppendIdempotent | backend/claims/management/commands/reload_claims_data.py:80-100 | appending the same files a second time changes nothing |
| Reload.Run | backend/claims/management/commands/reload_claims_data.py:54-109 | the atomic block run step by step: on success the database is the block's result; on an error it is restored to its state before the block and the error is returned (the older command runs the same block at claims/management/commands/reload_claims_data.py:36-95) |
| BackendReload.ParseDate | backend/claims/management/commands/reload_claims_data.py:29-36 | a date exactly when the text is not blank, not `'nan'` and a `%Y-%m-%d` calendar date, and then that date |
| BackendReload.ParseDateOfIsoText | backend/claims/management/commands/reload_claims_data.py:29-36 | every valid date written `YYYY-MM-DD` parses back to itself |
| BackendReload.ParseDecimalOrZero | backend/claims/management/commands/reload_claims_data.py:38-45 | blank, `'nan'` and unreadable text give 0, never null; any other text is read as the number it writes |
| BackendReload.ParseDecimalOrZeroOfText | backend/claims/management/commands/reload_claims_data.py:38-45 | every decimal written in plain notation parses back to itself |
| BackendReload.DateOf | backend/claims/management/commands/reload_claims_data.py:77 | the stored discharge date is a converted date or null, never raw text |
| BackendReload.ClaimFromRow | backend/claims/management/commands/reload_claims_data.py:70-78 | a row raises exactly when its id is missing or not an integer; text defaults to `''`, amounts are never null, the date is converted |
| BackendReload.DetailFromRow | backend/claims/management/commands/reload_claims_data.py:93-98 | a row raises exactly when its id or claim id is missing or not an integer; text defaults to `''` |
| BackendReload.ClaimRowRoundTrip | backend/claims/management/commands/reload_claims_data.py:70-78 | a claim of the shape this command stores, written as a CSV line, is read back as itself |
| BackendReload.DetailRowRoundTrip | backend/claims/management/commands/reload_claims_data.py:93-98 | a detail with text in both optional columns, written as a CSV line, is read back as itself |
| BackendReload.BadIdAborts | backend/claims/management/commands/reload_claims_data.py:71 | one claim row with a blank or non-integer id aborts the reload and leaves the database as it was |
| BackendReload.Handle | backend/claims/management/commands/reload_claims_data.py:47-109 | the database ends as `Reloaded` says, and the command fails exactly when the block raises |
| LegacyReload.StrictAmount | claims/management/commands/reload_claims_data.py:53-54 | a blank amount is null; a non-blank one is the parsed decimal, and text `Decimal` rejects raises |
| LegacyReload.TextOrNone | claims/management/commands/reload_claims_data.py:58-62 | blank text is null; anything else is kept as it is |
| LegacyReload.ClaimFromRow | claims/management/commands/reload_claims_data.py:51-64 | a row raises exactly when its id is not an integer or an amount is not a decimal; a non-blank discharge date is kept as raw text |
| LegacyReload.DetailFromRow | claims/management/commands/reload_claims_data.py:78-84 | a row raises exactly when its id or claim id is not an integer; otherwise both ids are the integers the cells read as, and blank text is null |
| LegacyReload.ClaimRowRoundTrip | claims/management/commands/reload_claims_data.py:51-64 | a claim of the shape this command stores, written as a CSV line, is read back as itself |
| LegacyReload.DetailRowRoundTrip | claims/management/commands/reload_claims_data.py:78-84 | a detail whose optional text is null or not empty, written as a CSV line, is read back as itself |
| LegacyReload.BadAmountAborts | claims/management/commands/reload_claims_data.py:53 | one claim row with an amount that is not a decimal aborts the reload and leaves the database as it was |
| LegacyReload.Handle | claims/management/commands/reload_claims_data.py:29-95 | the database ends as `Reloaded` says, and the command fails exactly when the block raises |
| LegacyLoad.CopiedDate | claims/management/commands/load_claims_data.py:53-59 | a date exactly when the value is text that `strptime('%Y-%m-%d')` accepts; anything falsy, non-text or malformed is null |
| LegacyLoad.CopiedAmount | claims/management/commands/load_claims_data.py:61-74 | a null amount stays null; any other value is `Decimal(str(v))`, or null when that conversion fails (the intended behaviour) |
| LegacyLoad.CopiedAmountAsWritten | claims/management/commands/load_claims_data.py:61-74 | as written, the conversion escapes (`None`) exactly when a non-null value is text `Decimal` cannot read; otherwise it agrees with `CopiedAmount` |
| LegacyLoad.ClaimFromSource | claims/management/commands/load_claims_data.py:76-84 | the record has the row's id and text unchanged, with converted amounts and date |
| LegacyLoad.ClaimFromSourceAsWritten | claims/management/commands/load_claims_data.py:47-84 | as written, the row raises exactly when an amount conversion escapes; otherwise it gives `ClaimFromSource` |
| LegacyLoad.DetailFromSource | claims/management/commands/load_claims_data.py:115-120 | the detail is copied field for field |
| LegacyLoad.CopiedClaims | claims/management/commands/load_claims_data.py:46-84 | one record per source row, in order: there is no skip path |
| LegacyLoad.CopiedDetails | claims/management/commands/load_claims_data.py:108-120 | one detail per source row, in order |
| LegacyLoad.CopiedClaimIds | claims/management/commands/load_claims_data.py:46-84 | the records carry exactly the ids of the source rows |
| LegacyLoad.LoadedClaimIds | claims/management/commands/load_claims_data.py:37-88 | after the claim load the table holds exactly the ids of the source rows |
| LegacyLoad.EverySourceRowCopied | claims/management/commands/load_claims_data.py:76-88 | each stored claim is built from the first source row with its id: same id and text, converted amounts and date |
| LegacyLoad.FailedQueryEmptiesTable | claims/management/commands/load_claims_data.py:37-41 | the table is emptied before the query, so a query that raises leaves it empty, along with every flag and note |
| LegacyLoad.DetailsCopiedVerbatim | claims/management/commands/load_claims_data.py:99-124 | the detail table is emptied first, and a source detail whose id is unique is stored field for field |
| LegacyLoad.CopiedAmountValues | claims/management/commands/load_claims_data.py:61-74 | null stays null, an integer `n` becomes `Decimal(n)`, and an amount in plain notation is read exactly |
| LegacyLoad.CopiedDateValues | claims/management/commands/load_claims_data.py:53-59 | null, 0 and `''` give a null date; `YYYY-MM-DD` text is read back as that date |
| LegacyLoad.UnreadableAmountEmptiesTable | claims/management/commands/load_claims_data.py:61-74 | as written, an amount text `Decimal` cannot read ends the load with the claim table emptied; the corrected load keeps that row |
| LegacyLoad.EmptyAmountTextAborts | claims/management/commands/load_claims_data.py:63-67 | the smallest such input: one row whose billed amount is the empty text |
| LegacyLoad.CollectClaims | claims/management/commands/load_claims_data.py:46-84 | the copy loop builds exactly `CopiedClaims` |
| LegacyLoad.CollectDetails | claims/management/commands/load_claims_data.py:108-120 | the copy loop builds exactly `CopiedDetails` |
| LegacyLoad.LoadClaimListData | claims/management/commands/load_claims_data.py:32-92 | (corrected: an unreadable amount becomes null, see Findings) the table ends as `LoadClaimList` says, and the count is the number of source rows |
| LegacyLoad.LoadClaimDetailData | claims/management/commands/load_claims_data.py:94-128 | the detail table ends as `LoadClaimDetail` says, and the count is the number of source rows |
| LegacyLoad.Handle | claims/management/commands/load_claims_data.py:13-30 | (corrected, see Findings) the database ends as `Load` says; an error is printed, never raised, and the detail load runs only after the claim load returned |
| Sqlite.AmountOf | database.py:66-67 | a blank amount is `NULL`; a non-blank one is the parsed number, and text the conversion rejects raises |
| Sqlite.ClaimFromCsv | database.py:63-71 | the parameters of one insert: the row raises exactly when its id is not an integer or an amount is unreadable; the text columns, discharge date included, are stored as the file holds them, empty strings included |
| Sqlite.DetailFromCsv | database.py:86-91 | the row raises exactly when its id or claim id is not an integer; the text columns are stored verbatim |
| Sqlite.LastRowWins | database.py:54-71 | after a run that commits, each claim id of the file holds its last row, and every other id keeps what it had: the table is never cleared |
| Sqlite.LastDetailRowWins | database.py:77-91 | the same last-row-wins rule for the detail table |
| Sqlite.MissingFilesTouchNothing | database.py:54-94 | a missing file leaves its table exactly as it was |
| Sqlite.BadIdKeepsEverything | database.py:64 | a claim row whose id is not an integer stops the run before the commit, so both tables keep what they had |
| Sqlite.BadClaimIdKeepsEverything | database.py:88 | so does a detail row whose claim id is not an integer, even after every claim row went in |
| Sqlite.SqliteDatabase.constructor | database.py:31-51 | both tables are created empty when absent |
| Sqlite.SqliteDatabase.InsertClaims | database.py:58-71 | the `INSERT OR REPLACE` loop gives exactly the upsert of the parsed rows, or stops at the first row that raises |
| Sqlite.SqliteDatabase.InsertDetails | database.py:81-91 | the same loop for the detail table |
| Sqlite.SqliteDatabase.PushCsvToSqlite | database.py:5-104 | the run commits exactly when no step raises, and the tables end as `Stored` says: updated when committed, unchanged otherwise |
| Bulk.InsertIgnoring | backend/claims/management/commands/load_claims_data.py:102 | `bulk_create(..., ignore_conflicts=True)` adds exactly the keys of the batch that are new and never changes a row already stored |
| Bulk.InsertIgnoringFirstWins | backend/claims/management/commands/reload_claims_data.py:80 | a key the table lacks but the batch repeats gets the FIRST object of the batch with that key; the later duplicates are dropped |
| Bulk.InsertIgnoringFirstWinsAll | backend/claims/management/commands/reload_claims_data.py:80 | the same, for every key the table lacked at once |
| Bulk.InsertIgnoringTaken | backend/claims/management/commands/reload_claims_data.py:100 | a batch whose every key is taken leaves the table unchanged |
| Bulk.KeysOfBound | backend/claims/management/commands/load_claims_data.py:101-103 | a batch never has more distinct ids than objects, so the stored records never outnumber the reported count |
| Bulk.Upsert | database.py:59-71 | a run of `INSERT OR REPLACE` statements adds the batch's keys; keys the batch does not mention keep their rows |
| Bulk.UpsertSnoc | database.py:59 | each statement replaces the one row with its key, whatever was there |
| Bulk.UpsertLastWins | database.py:82-91 | a key the batch repeats ends with the LAST object of the batch with that key |
| Models.NewFlag | backend/claims/models.py:42-50 | a created flag is open (`is_resolved` defaults to false), has no resolution time or resolver, and carries the claim, user and reason given |
| Models.AmountCellRoundTrip | backend/claims/models.py:8-9 | an amount written into a CSV cell reads back as the same amount; an absent amount is the empty cell |
| Models.DeleteClaims | backend/claims/models.py:44 | deleting claims removes exactly their flags and notes (CASCADE), keeps every surviving claim, flag and note unchanged, keeps details and counters, and keeps the database consistent |
| Models.ClearClaimsWipesAnnotations | backend/claims/models.py:62 | emptying the claim table leaves no flag and no note, and changes nothing else |
| Models.ClearDetails | backend/claims/models.py:22-25 | emptying the detail table leaves claims, flags, notes and counters as they were: `claim_id` is a plain integer that no table refers to |
| Models.AddClaims | backend/claims/models.py:6 | a bulk insert of claims keeps every earlier claim unchanged, stores each new id with the first object of the batch with that id (ignore_conflicts), leaves the other tables and counters alone, and keeps the database consistent |
| Models.AddDetails | backend/claims/models.py:24 | the same for details: earlier details unchanged, each new id with its first object, everything else untouched |
| Models.DeleteUser | backend/claims/models.py:45-50 | deleting a user removes exactly the flags and notes the user wrote (CASCADE), clears the user as resolver of the flags that stay (SET_NULL) and changes nothing else about them, keeps the surviving notes unchanged, and keeps claims, details and counters |
| Models.DeleteUserKeepsResolvedFlag | backend/claims/models.py:50 | a flag the user resolved but did not raise survives, still resolved, with only the resolver cleared |
| Models.ClaimLabelParts | backend/claims/models.py:19-20 | a claim's label splits into its id, `-` and the patient name, and the id parses back |
| Models.DetailLabelParts | backend/claims/models.py:34-35 | a detail's label is the words `<id> - Claim <claim id>`, and both ids parse back |
| Models.AnnotationLabelParts | backend/claims/models.py:57-75 | flag and note labels are the words `Flag <id> - Claim <claim id>` and `Note <id> - Claim <claim id>`, and both ids parse back |
| Models.ClaimOf | backend/claims/models.py:37-40 | the related claim exists exactly when some claim has the detail's `claim_id`, and then it is that claim |
| Models.ClaimDatabase.constructor | backend/claims/models.py:4-72 | the four tables start empty and consistent |
| Models.ClaimDatabase.DeleteAllClaims | backend/claims/management/commands/reload_claims_data.py:58 | the new state is `ClearClaims` of the old one, so the cascade is part of it |
| Models.ClaimDatabase.DeleteAllDetails | backend/claims/management/commands/reload_claims_data.py:59 | the new state is `ClearDetails` of the old one |
| Models.ClaimDatabase.BulkCreateClaims | backend/claims/management/commands/load_claims_data.py:102 | the new state is `AddClaims` of the old one |
| Models.ClaimDatabase.BulkCreateDetails | backend/claims/management/commands/load_claims_data.py:147 | the new state is `AddDetails` of the old one |
| Models.ClaimDatabase.Restore | backend/claims/management/commands/reload_claims_data.py:54-55 | a failed `transaction.atomic()` block puts back exactly the state saved when it opened |
| Models.ClaimDatabase.CreateFlag | backend/claims/views.py:582-587 | `ClaimFlag.objects.create` stores a new open flag under the next id and changes nothing else |
| Models.ClaimDatabase.CreateNote | backend/claims/views.py:625-630 | `ClaimNote.objects.create` stores the note under the next id, with both timestamps set to now, and changes nothing else |
| Models.ClaimDatabase.SaveFlag | backend/claims/views.py:673 | `flag.save()` replaces that one flag |
| Models.ClaimDatabase.SaveNote | backend/claims/views.py:737 | `note.save()` replaces that one note |
| Models.ClaimDatabase.RemoveFlag | backend/claims/views.py:759 | `flag.delete()` removes that one flag |
| Models.ClaimDatabase.RemoveNote | backend/claims/views.py:714 | `note.delete()` removes that one note |
| Text.Lower | backend/claims/views.py:143 | `lower()` keeps the length and lowers each character on its own |
| Text.TrimStart | backend/claims/views.py:172 | the leading characters removed are exactly the longest run of characters in the set, and what is left starts outside it |
| Text.TrimEnd | backend/claims/views.py:172 | the trailing characters removed are exactly the longest run of characters in the set, and what is left ends outside it |
| Text.Split | backend/claims/views.py:144 | `split` gives at least one piece and no piece holds the separator |
| Text.JoinSplit | backend/claims/views.py:144 | joining the pieces of a split with the separator gives the text back |
| Text.SplitAtFirst | backend/claims/views.py:172 | the first separator cuts off the text before it as the first piece |
| Text.NonEmpty | backend/claims/views.py:144 | `filter(None, ...)` keeps exactly the non-empty pieces |
| Text.StripUnchanged | backend/claims/views.py:622 | `strip` leaves text alone that has no whitespace at either end |
| Text.ParseIntOfIntToString | database.py:64 | `int(str(i)) == i` |
| Text.DigitsValueOfNatToString | database.py:64 | the digits `str(n)` writes denote `n` |
| Values.ParseDecimal | backend/claims/management/commands/load_claims_data.py:75 | blank text (after stripping) is never read as a number |
| Values.ParseDecimalOfInt | backend/claims/management/commands/load_claims_data.py:83 | an integer literal is read as that many whole units, with no places |
| Values.ParseDecimalPoint | claims/management/commands/reload_claims_data.py:53-54 | `whole.fraction` is read as the digits together, scaled by the number of fraction digits |
| Values.ParseDecimalNegated | claims/management/commands/reload_claims_data.py:53-54 | a leading minus negates what is read |
| Values.ParseDecimalText | claims/management/commands/load_claims_data.py:65 | every decimal written in plain notation reads back as itself, its scale included |
| Values.DigitsOf | claims/management/commands/load_claims_data.py:65 | the digits of a decimal, cut so that the second piece has exactly its places, denote its magnitude |
| Values.ParseIsoDate | backend/claims/management/commands/reload_claims_data.py:34 | `strptime(s, '%Y-%m-%d')` only ever yields a real calendar date |
| Values.ParseIsoText | backend/claims/management/commands/load_claims_data.py:67 | every valid date written as `YYYY-MM-DD` reads back as itself |
| Values.UsText | backend/claims/views.py:182 | `strftime('%m/%d/%Y')` is ten characters with slashes at positions 2 and 5 |
| Values.Pad2Value | backend/claims/views.py:182 | the two digits of a month or day denote it |
| Values.Pad4Value | backend/claims/views.py:182 | the four digits of a year denote it |
| Views.SlugChar | backend/claims/views.py:143 | each character of the file name's patient part is a lower-case letter, a digit or a dash |
| Views.SlugIsShaped | backend/claims/views.py:142-144 | the patient part of the export file name is lower-case letters, digits and single dashes, never starting or ending with a dash |
| Views.SlugWithoutAlnum | backend/claims/views.py:142-145 | a non-empty name with no letter or digit gives an empty slug, so the file is named `<id>-.csv`; the `patient` default covers only a missing or empty name |
| Views.SlugOfPlainName | backend/claims/views.py:142-144 | a name already made of lower-case letters and digits is used as it is |
| Views.SlugDefault | backend/claims/views.py:142 | a missing or empty patient name gives `patient` |
| Views.CleanCodes | backend/claims/views.py:172 | every comma-separated piece is cleaned on its own, and none is lost or added |
| Views.NormalizeCptNonEmpty | backend/claims/views.py:169-176 | the CPT column of an exported row is never empty: `-` stands for no codes |
| Views.NormalizeCptOfCodes | backend/claims/views.py:169-176 | clean codes written with commas come out joined with `"; "`, in order, none lost |
| Views.SplitJoin | backend/claims/views.py:172 | splitting a comma join of comma-free pieces gives the pieces back |
| Views.OrDash | backend/claims/views.py:179-181 | `value or '-'` is the value when there is one and `-` exactly when it is missing, empty or `-` itself |
| Views.AmountOrZero | backend/claims/views.py:183-184 | a missing amount is exported as zero, any other as itself |
| Views.Ascending | backend/claims/views.py:166 | `order_by('id')` lists every key exactly once, in strictly increasing order |
| Views.DetailsOf | backend/claims/views.py:166 | the claim's details, in ascending id order |
| Views.Rows | backend/claims/views.py:167-205 | one row per detail, each the claim's columns followed by that detail's; one row of dashes when there are none |
| Views.WriteRows | backend/claims/views.py:167-205 | the loop writes exactly the rows `Rows` describes |
| Views.ExportClaim | backend/claims/views.py:130-205 | the export view produces exactly `ExportOf`: a 404 for a missing claim, otherwise the header and the rows |
| Views.ExportShape | backend/claims/views.py:130-205 | a 404 exactly when the claim is missing; otherwise the file name is built from the claim, every row has one cell per column and starts with the claim's columns, and a claim without details gets one row of dashes |
| Views.ExportDetailOrder | backend/claims/views.py:166-190 | with details, the export has one row per detail of the claim, each exactly once, in ascending id order |
| Views.ListClaims | backend/claims/views.py:82-116 | the list holds exactly the claims that pass the search, status and insurer filters, in ascending id order |
| Views.SearchIgnoresCase | backend/claims/views.py:88-93 | `icontains` does not depend on the case of the search text |
| Views.EmptyFiltersListAll | backend/claims/views.py:82-116 | with no search and no filters every claim is listed, in id order |
| Views.SearchFindsId | backend/claims/views.py:90 | searching for a claim's id finds that claim |
| Handlers.Back | backend/claims/views.py:589-613 | after a change an HTMX request gets the partial and any other a redirect, both to the same claim |
| Handlers.Resolved | backend/claims/views.py:669-673 | resolving an open flag makes it resolved, stamped and consistent |
| Handlers.FlagClaimAddsOpenFlag | backend/claims/views.py:575-615 | only a POST for an existing claim adds a flag: exactly one, open, under a fresh id, with the posted reason and the requesting user, and nothing else changes |
| Handlers.EmptyNoteAddsNothing | backend/claims/views.py:622-631 | a note that is empty after stripping adds nothing |
| Handlers.AddNoteNeedsText | backend/claims/views.py:618-660 | without a POST, an existing claim and text that is not all blanks, nothing is added |
| Handlers.AddNoteKeepsValid | backend/claims/views.py:618-631 | adding a note keeps the database consistent |
| Handlers.AddNoteStores | backend/claims/views.py:625-630 | a POST with text for an existing claim stores exactly one new note under the next id, and nothing else |
| Handlers.AddNoteStoresStrippedText | backend/claims/views.py:622-630 | otherwise exactly one note is added, under a fresh id, holding the text without its surrounding blanks, and nothing else changes |
| Handlers.ResolveIsOneWay | backend/claims/views.py:663-701 | after a POST the flag is resolved; an open flag gets this request's time and user, a resolved one keeps what it had, and nothing else changes (the same rule at claims/views.py:409-449) |
| Handlers.ResolveIdempotent | backend/claims/views.py:669-675 | resolving again never re-opens or re-stamps a flag, whoever resolves it and when |
| Handlers.DeleteNoteOnlyByOwner | backend/claims/views.py:706-718 | the note goes exactly on a POST by its author or a superuser, no note but that one can go, and no other record changes (the same rule at claims/views.py:452-464) |
| Handlers.DeleteFlagOnlyByOwner | backend/claims/views.py:751-763 | the flag goes exactly on a POST by its author or a superuser, and no other record changes (the same rule at claims/views.py:497-509) |
| Handlers.EditNoteOnlyByOwner | backend/claims/views.py:723-748 | a note changes only on a POST by its author or a superuser with text that is not all blanks; the edit form is shown exactly to them on a GET (the same rule at claims/views.py:469-494) |
| Handlers.EditNoteKeepsIdentity | backend/claims/views.py:733-737 | an edit keeps the note's id, claim, author and creation time, stores the stripped text with the request's time, and touches no other record |
| Handlers.NonPostHandlersFail | backend/claims/views.py:703 | as written, a request to `resolve_flag`, `delete_flag` or `delete_note` that is not a POST ends in a 500; the corrected handlers redirect to the object's claim (the same unbound variable at claims/views.py:449, 466 and 511) |
| Handlers.PostHandlersAgree | backend/claims/views.py:663-765 | on a POST the handlers as written and as corrected agree |
| Handlers.FlagClaimView | backend/claims/views.py:575-615 | the view does exactly what `FlagClaim` says to the database and answers as it says |
| Handlers.AddNoteView | backend/claims/views.py:618-660 | the view agrees with `AddNote` |
| Handlers.ResolveFlagView | backend/claims/views.py:663-703 | the view agrees with the corrected `ResolveFlag` |
| Handlers.DeleteNoteView | backend/claims/views.py:706-720 | the view agrees with the corrected `DeleteNote` |
| Handlers.EditNoteView | backend/claims/views.py:723-748 | the view agrees with `EditNote` |
| Handlers.DeleteFlagView | backend/claims/views.py:751-765 | the view agrees with the corrected `DeleteFlag` |
| Handlers.ReportDetectsChange | backend/claims/views.py:384-397 | changes are reported exactly when some file's fingerprint differs from the stored one, each reported file is one that differs, and the file count is that of the scan |
| Handlers.ApiCheckChanges | backend/claims/views.py:384-397 | the endpoint answers `Report` of the stored snapshot and replaces the snapshot with the scan, or keeps it and answers 500 when the scan raises |
| LegacyViews.Present | claims/views.py:148-152 | the gathered values are all non-empty and never more than the details |
| LegacyViews.PresentMembers | claims/views.py:148-152 | a value is gathered exactly when some detail holds it and it is not empty |
| LegacyViews.PresentSnoc | claims/views.py:149-152 | one more detail appends its value when it is truthy and nothing otherwise |
| LegacyViews.GatherStep | claims/views.py:148-152 | each turn of the loop adds the detail's truthy CPT code and denial reason to what was gathered |
| LegacyViews.GatherDetails | claims/views.py:144-152 | the loop gathers exactly the truthy CPT codes and the truthy denial reasons, in detail order |
| LegacyViews.ExportSummary | claims/views.py:125-170 | the export view produces exactly `SummaryOf`: a 404 for a missing claim, otherwise the header and the one row |
| LegacyViews.GatheredColumn | claims/views.py:155-156 | a joined column is `-` when no value is present and otherwise contains every present value |
| LegacyViews.NothingPresent | claims/views.py:155-156 | with no truthy value nothing is gathered |
| LegacyViews.JoinContainsPiece | claims/views.py:155 | each piece of a join occurs in it |
| LegacyViews.SummaryColumns | claims/views.py:137-168 | the export has the nine-column header, the file name `claim_<id>_report.csv` and one nine-cell row; the CPT column is `-` when no detail has a code and otherwise contains every code, and the denial column likewise |
| LegacyViews.SummaryAmounts | claims/views.py:164-165 | a missing or zero amount is written `$0.00`, any other as itself |
| LegacyViews.DollarsOf | claims/views.py:164-165 | an amount is always written as dollars |
| Middleware.PublicPathsPass | claims_interface/middleware.py:10-15 | login, logout, static files and the root pass whoever asks |
| Middleware.DashboardNeedsLogin | claims_interface/middleware.py:18-22 | a dashboard path is refused exactly to an anonymous user |
| Middleware.AdminNeedsStaff | claims_interface/middleware.py:25-29 | an admin path passes exactly for an authenticated staff user |
| Middleware.OtherPathsPass | claims_interface/middleware.py:31-32 | any other path passes, whatever the user |
| Middleware.MorePrivilegeNeverRefused | claims_interface/middleware.py:8-32 | what a user with less privilege reaches, one with more reaches too |
| Middleware.NonStaffUser | claims_interface/middleware.py:18-29 | a logged-in user without staff status reaches the dashboard but not the admin |
| Forms.CleanUsername | backend/claims/forms.py:51-63 | the username is accepted exactly when given and not taken, and is returned unchanged |
| Forms.CleanEmail | backend/claims/forms.py:65-77 | the address is accepted exactly when given and not taken, and is returned unchanged |
| Forms.CleanPassword2 | backend/claims/forms.py:79-88 | an error exactly when both passwords are given and differ; the confirmation is returned unchanged |
| Forms.ValidIff | backend/claims/forms.py:6-88 | a form is accepted exactly when all four fields are given, the name and the address are free, and the passwords match |
| Forms.EmailRequired | backend/claims/tests.py:35-44 | nothing without an email address is accepted |
| Forms.DuplicateEmailRefused | backend/claims/forms.py:74-75 | an address already in use is refused, whatever else the form says |
| Forms.SampleSignupAccepted | backend/claims/tests.py:24-33 | the form of the valid-data test is accepted when no account exists |
| Forms.SampleDuplicateRefused | backend/claims/tests.py:46-64 | the duplicate-email test's form is refused once `existinguser` holds the address |
| Forms.FieldsInOrder | backend/claims/forms.py:40 | the fields come in the order username, email, password, confirmation |

## Left out

- File reading, MD5 and `stat`: the hash, modified time and size of each file are given inputs. A directory listing that raises part-way is not modelled, apart from the whole scan raising.
- The expiry of cached values (`timeout=3600`): the cache is a stored value that never expires.
- The `while True` loop of `auto_reload_data` with its `time.sleep` and `KeyboardInterrupt`: the model covers the priming check and single rounds (`RunOnce`, `CheckAndReload`).
- The logging and `stdout` messages of every command; only the decisions behind them are modelled (`Ingest.Warned` gives the positions warned about).
- Concurrency between overlapping reloads, and the isolation the database gives them.
- Templates, `HttpResponse`/`JsonResponse` bodies, `messages`, the `Paginator` (25 claims per page) and the filter choice lists of the claim list. The dashboard and analytics aggregations are SQL the model cannot see.
- CSV quoting: an export is a sequence of typed cells, not the bytes `csv.writer` produces.
- Unicode: `isalnum`, `lower`, `isspace` and digit parsing are modelled on ASCII only.
- Sqlite.AmountOf: `float()` also accepts exponents, `nan`, `inf` and digit underscores; the model reads plain decimal notation only and treats the rest as raising. REAL columns are modelled as exact decimals, not binary floating point.
- BackendReload.ParseDecimalOrZero: `float()` also reads exponents, `inf`, underscores and the NaN spellings other than the exact text `'nan'` (`'NaN'`, `' nan '`, `'-nan'`), which give a float NaN; the model gives 0 for them, as for any text it cannot read, and it returns an exact decimal where the source returns a float.
- BackendLoad.ClaimFromRow: `Decimal` also reads exponents, `NaN` and `Infinity`; the model gives null for them, as for any other unreadable amount.
- Amount rounding: `DecimalField(max_digits=15, decimal_places=2)` is not enforced. Amounts are stored at the scale the CSV gives them, and a value the field would refuse is not modelled.
- Float formatting: the backend export writes `float(amount)` with two decimals and the older export writes `$` and two decimals. The model keeps the exact amount in a typed cell and does not render it.
- Views.DateOrDash: a discharge date held as raw text is shown as that text. In the source, the ORM would convert it to a date on read-back (or fail).
- The ORM's conversion of the raw date text that the older reload command stores (`LegacyReload`): the record keeps the text, and whether the database accepts it is not modelled.
- `strftime` for years below 1000, which some platforms do not pad to four digits.
- Models.AddClaims, Models.AddDetails, Bulk.Upsert: ids are unbounded integers in the model. The sqlite3 driver binds only signed 64-bit integers, so an id outside [-2^63, 2^63), such as `99999999999999999999`, makes the insert raise `OverflowError`. The source then behaves as follows: both reload commands roll back, `database.py` never commits, and the backend `load_claims_data` ends with its emptied claim table. The model stores such a row instead, so `Sqlite.LastRowWins`, `BackendLoad.LoadedClaimsFirstWins` and the reload lemmas hold only for ids in that range.
- SQLite specifics of `database.py`: a NULL or non-integer id that SQLite itself would accept, type affinity, and the foreign key from `claim_detail` to `claim_list`, which SQLite does not enforce unless asked to.
- A CSV whose header lacks a column the code indexes with `row[...]` (a `KeyError`) is not told apart from a short row whose field is missing; both take the same path in every loader.
- claims/models.py is not part of this model. The older commands and views are modelled against the models of `backend/claims/models.py`, so any difference between the two model files is not captured. In particular, the older `flag_claim` and `add_note` (claims/views.py:323-407) pass no timestamps, and the model does not capture whether their models supply defaults.
- The SQLite table the older `load_claims_data` reads its rows from is an input (`Option<seq<SourceClaim>>`, where `None` is a query that raises). Whether that table is the one the command has just emptied is not modelled.
- The details query of the older export (`ClaimDetail.objects.filter(claim_id=...)`) has no `order_by`. The model gathers the details in ascending id order, the order SQLite usually returns.
- `reload_data` re-raises after logging, but `load_claims_data` never raises, so that path cannot be reached. The model covers the reachable behaviour only.
- Signup: the format check of `EmailField`, Django's password validators, password hashing, `form.save()` and the login/signup views.
- Forms.ValidIff: the username checks `UserCreationForm` inherits (letters, digits and `@.+-_` only, at most 150 characters) are not modelled; the model accepts any non-empty free username.
- LegacyReload.StrictAmount: `Decimal` also reads exponents, digit underscores, `NaN` and `Infinity`; the model treats such text as raising, so the reload rolls back where the source would store the value.
- LegacyLoad.CopiedAmount: text that `Decimal(str(v))` reads but that is not in plain notation (an exponent, underscores, `NaN`, `Infinity`) becomes null in the model instead of that value.
- LegacyLoad.CopiedAmountAsWritten: the same text is modelled as escaping, where the source would read it.
- Text.ParseInt: `int()` also accepts underscores between digits and non-ASCII digits; the model refuses them, so such an id is treated as unreadable.
- Views.SlugIsShaped: does not promise a non-empty slug, because a name with no letter or digit gives an empty one (`Views.SlugWithoutAlnum`).
- Frontend polling script, admin registrations, URL routing, health and debug views, and the diagnostic scripts: there is no rule in them to state.
- Reloads do not keep flags and notes: the code deletes every claim before an overwrite reload and at the start of a backend load, and `on_delete=CASCADE` removes the flags and notes with them. The model follows the code (`Models.ClearClaimsWipesAnnotations`, `Reload.OverwriteWithoutFiles`, `BackendLoad.MissingClaimFileEmptiesTable`).

## Findings

| source | as written | input that shows it | evidently intended | confidence | as-written member | corrected member |
|---|---|---|---|---|---|---|
| backend/claims/views.py:703 | `resolve_flag`, `delete_note` and `delete_flag` (also lines 720 and 765, and claims/views.py:449, 466, 511) end their non-POST branch with `redirect(..., claim_id=flag.claim.id)` or `note.claim.id`. The variable is bound only in the POST branch, so the view raises `UnboundLocalError` and answers 500. | a GET to `resolve_flag` for an existing flag | a redirect to the page of the flag's (or note's) claim, with nothing changed | not executed; high: the variable is assigned only under `if request.method == 'POST'` | Handlers.ResolveFlagAsWritten, Handlers.DeleteNoteAsWritten, Handlers.DeleteFlagAsWritten, Handlers.NonPostHandlersFail | Handlers.ResolveFlag, Handlers.DeleteNote, Handlers.DeleteFlag, Handlers.PostHandlersAgree, Handlers.ResolveFlagView, Handlers.DeleteNoteView, Handlers.DeleteFlagView |
| claims/management/commands/load_claims_data.py:63-74 | `Decimal(str(x))` is guarded by `except (ValueError, TypeError)`. `Decimal` reports unreadable text with `decimal.InvalidOperation`, an `ArithmeticError`, so the error escapes. The load aborts after `ClaimList.objects.all().delete()`, which leaves the claim table empty and the detail load not run. | one source row whose billed amount is the empty text `''` | an unreadable amount becomes null and the row is still copied, as the handler's fallback says | not executed; high: `InvalidOperation` is not a subclass of `ValueError` or `TypeError` | LegacyLoad.CopiedAmountAsWritten, LegacyLoad.ClaimFromSourceAsWritten, LegacyLoad.LoadClaimListAsWritten, LegacyLoad.UnreadableAmountEmptiesTable, LegacyLoad.EmptyAmountTextAborts | LegacyLoad.CopiedAmount, LegacyLoad.LoadClaimList, LegacyLoad.Load, LegacyLoad.LoadClaimListData, LegacyLoad.Handle, LegacyLoad.EverySourceRowCopied, LegacyLoad.LoadedClaimIds |
