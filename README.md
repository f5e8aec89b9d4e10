# Retail master-data pipeline, modelled in Dafny

This project models the logic of a retail data pipeline's cloud functions.
The pipeline keeps customer, product and supplier files in one storage
bucket and turns them into master files. It has three parts.

- **Full-replace mastering** (`consolidate_masters`). An upload event names
  a snapshot file. The event is routed to an entity by the file's prefix and
  suffix. The snapshot is then compared with the entity's master by an
  order-independent fingerprint: the rows are sorted by every column and
  hashed. The outcome is one of three:
  - an identical snapshot changes nothing (`unchanged`);
  - a first snapshot creates the master (`created`);
  - any other snapshot replaces the master (`mastered`), after the old
    master has been copied into the entity's history folder.

  Each relevant event then appends one JSON line to the audit log.
- **Incremental-merge consolidation** (`mdm_consolidator`). Dated daily
  files are selected by a pattern and sorted by date. They are then folded
  with key-based last-writer-wins: master rows whose key occurs in the new
  file are dropped, and every row of the new file is appended. The result is
  sorted by the primary key and uploaded once.
- **Record generators** (`data_generator` and the three `generate_*_daily`
  functions). Each builds synthetic customers, suppliers or products. The
  model covers their deterministic skeleton:
  - zero-padded identifiers;
  - table lookups with defaults;
  - the excluded-country loop;
  - duplicate rows with rewritten identifiers and a one-entry-per-change
    modification history;
  - the Tuesday rule for supplier duplicates.

The storage bucket is `BlobStore.Bucket`, a class holding a map from path to
text. Its upload, copy and delete methods change that map in place; its
list method only reads it.

Each cloud function that changes the store is a method on the bucket. Each
such method is proved equal to a pure function of the old map. The
properties are then proved about those functions:
- `ConsolidateMasters.Mastering` and `ConsolidateMasters.HandleEventRun`
  return the outcome and the writes performed, in order;
- `MdmConsolidator.ConsolidatedFrom` and `MdmConsolidator.Uploaded` give the
  consolidation's result and the bucket after it.

Inputs the code takes from the outside world are parameters of the model:
- every Faker and `random` draw, as one datatype value per row;
- the MD5 digest, as an uninterpreted function;
- the clock and timestamps, as strings;
- the weekday, as a number.

The modules are:
- `Wrappers`: `Option` and `Result`.
- `Text`: splitting, prefixes and suffixes, and ASCII case mapping.
- `Decimal`: decimal digits and `zfill`.
- `Order`: lexicographic orders and a proved stable insertion sort.
- `Json`: a `json.dumps` printer.
- `Csv`: a CSV codec with a proved round trip.
- `BlobStore`, `SharedUtils`, `ConsolidateMasters`, `MdmConsolidator`,
  `History`, `DataGenerator`, `CustomersDaily`, `SuppliersDaily` and
  `ProductsDaily`.

## Model

| member | source | states |
|---|---|---|
| BlobStore.Bucket.Get | cloud_functions/consolidate_masters/main.py:18-21 | A blob is present exactly when its path is in the store, and then it holds the stored text. |
| BlobStore.Bucket.Upload | cloud_functions/shared/utils.py:19-20 | The blob at the path now holds the text. Every other blob is unchanged. |
| BlobStore.Bucket.Copy | cloud_functions/consolidate_masters/main.py:39 | A copy succeeds exactly when the source exists. On success only the destination changes, and it takes the source's text. On failure nothing changes. |
| BlobStore.Bucket.Delete | cloud_functions/shared/utils.py:28 | The call reports whether the blob existed. Afterwards the path is absent and nothing else changes. |
| BlobStore.Bucket.ListBlobs | cloud_functions/mdm_consolidator/create_consolidated_masters.py:16-21 | It returns exactly the stored names with the prefix, in strictly ascending order. |
| BlobStore.LeastExists | cloud_functions/mdm_consolidator/create_consolidated_masters.py:20 | Every non-empty set of names has a least element, so a listing exists. |
| SharedUtils.DownloadCsv | cloud_functions/shared/utils.py:9-14 | A readable download comes from a blob that exists, and it is a well-formed table. |
| SharedUtils.UploadCsvToGcs | cloud_functions/shared/utils.py:16-21 | The bucket after the call is `Uploaded` of the bucket before it. |
| SharedUtils.UploadTouchesOnlyPath | cloud_functions/shared/utils.py:16-21 | An upload adds or overwrites the one path. Every other blob keeps its text. |
| SharedUtils.DownloadAfterUpload | cloud_functions/shared/utils.py:9-20 | Downloading a path just uploaded returns the uploaded table. |
| SharedUtils.MoveBlob | cloud_functions/shared/utils.py:23-29 | A move succeeds exactly when the source exists. It then leaves the store as `Moved` describes; otherwise the store is unchanged. |
| SharedUtils.MoveDistinct | cloud_functions/shared/utils.py:27-28 | For distinct paths, the destination holds the old source, the source is gone, and every other blob is unchanged. |
| SharedUtils.MoveOntoItself | cloud_functions/shared/utils.py:27-28 | Moving a blob onto its own path deletes it, because the copy is followed by the delete. |
| SharedUtils.AppendAuditLog | cloud_functions/shared/utils.py:31-41 | The log becomes its old text, or "" when it is missing, followed by one JSON line. Nothing else changes. |
| SharedUtils.LineCountConcat | cloud_functions/shared/utils.py:39-40 | The line count of a concatenation is the sum of the parts' counts. |
| SharedUtils.AppendAddsOneLine | cloud_functions/shared/utils.py:35-40 | The old log is a prefix of the new one, and the new one has exactly one more line. |
| SharedUtils.FirstAppendIsOneLine | cloud_functions/shared/utils.py:35-39 | Appending to a missing log yields exactly the entry's JSON and a newline, which is one line. |
| Json.DumpsHasNoNewline | cloud_functions/shared/utils.py:39 | `json.dumps` output contains no newline, so each audit entry is one line. |
| Json.DumpsPrintable | cloud_functions/shared/utils.py:39 | `json.dumps` output is printable ASCII, with non-ASCII characters escaped. |
| Csv.Parse | cloud_functions/shared/utils.py:14 | A successful parse yields a well-formed table: a non-blank header of distinct names, and rows as wide as the header. |
| Csv.ParseRender | cloud_functions/shared/utils.py:14-20 | Reading back a written table gives the same table. |
| ConsolidateMasters.HistoryIsNotMaster | cloud_functions/consolidate_masters/main.py:38-54 | An entity's history path is never its master path. |
| ConsolidateMasters.Canonical | cloud_functions/consolidate_masters/main.py:22 | The same columns and a permutation of the rows, sorted by all columns. |
| ConsolidateMasters.FileHash | cloud_functions/consolidate_masters/main.py:14-25 | The result is `None` exactly when the blob is missing or unparsable. Otherwise it is the digest of the sorted table's text. |
| ConsolidateMasters.CanonicalIgnoresRowOrder | cloud_functions/consolidate_masters/main.py:22 | Two tables with the same columns and the same rows in any order have the same canonical form. |
| ConsolidateMasters.FileHashIgnoresRowOrder | cloud_functions/consolidate_masters/main.py:22-23 | The fingerprint does not depend on row order. |
| ConsolidateMasters.ApplyOutside | cloud_functions/consolidate_masters/main.py:52-81 | Paths that no write names keep their presence and their text. |
| ConsolidateMasters.ApplyConcat | cloud_functions/consolidate_masters/main.py:98-106 | Applying two write lists in turn equals applying their concatenation. |
| ConsolidateMasters.UploadCsv | cloud_functions/consolidate_masters/main.py:27-31 | The master path receives the rendered table, and nothing else changes. |
| ConsolidateMasters.MoveToHistory | cloud_functions/consolidate_masters/main.py:33-40 | It returns that timestamp's history path, which now holds the current master. The master itself is still present. |
| ConsolidateMasters.LogAudit | cloud_functions/consolidate_masters/main.py:42-50 | The audit log gains one JSON line after its old text, which is "" when the log is missing. |
| ConsolidateMasters.ProcessMastering | cloud_functions/consolidate_masters/main.py:52-81 | The outcome and the new store are exactly those of `Mastering` on the old store. |
| ConsolidateMasters.UnchangedWritesNothing | cloud_functions/consolidate_masters/main.py:57-61 | Equal fingerprints, including both `None`, give `unchanged` with no write. |
| ConsolidateMasters.UnreadableWithoutMasterIsUnchanged | cloud_functions/consolidate_masters/main.py:57-61 | An unreadable new file with no readable master is `unchanged`. |
| ConsolidateMasters.UnreadableWithMasterCrashes | cloud_functions/consolidate_masters/main.py:57-66 | An unreadable new file that differs from a readable master raises at the download, and nothing is written. |
| ConsolidateMasters.FirstSnapshotCreates | cloud_functions/consolidate_masters/main.py:68-71 | With no master, the result is `created` with the row count. The only write is the master, and no history blob is written. |
| ConsolidateMasters.ChangedSnapshotArchivesFirst | cloud_functions/consolidate_masters/main.py:74-81 | A differing master is first copied to the history path and then overwritten. The result is `mastered`, carrying the row count and the history path. Exactly one path is new. |
| ConsolidateMasters.MasteringFrame | cloud_functions/consolidate_masters/main.py:52-81 | Mastering changes no path other than the master and the history path. |
| ConsolidateMasters.MasteringWritten | cloud_functions/consolidate_masters/main.py:68-75 | The paths mastering writes are at most the master and the history path. |
| ConsolidateMasters.MasterMatchesSnapshot | cloud_functions/consolidate_masters/main.py:57-61 | When the master holds the rendering of the frame the new file parses to, the fingerprints agree and the run is `unchanged` with no write. |
| ConsolidateMasters.MasteringIdempotent | cloud_functions/consolidate_masters/main.py:57-81 | Mastering the same file again, at any timestamp, is `unchanged` and writes nothing. |
| ConsolidateMasters.ReorderedSnapshotIsUnchanged | cloud_functions/consolidate_masters/main.py:22-61 | A snapshot that only reorders the master's rows is `unchanged`. |
| ConsolidateMasters.RouteOfSpec | cloud_functions/consolidate_masters/main.py:88-95 | A name is routed exactly when it ends in `.csv` and starts with `customers/`, `products/` or `suppliers/`. The route names that entity, and its key is the entity in singular with `_id`. |
| ConsolidateMasters.EnginePathsDistinct | cloud_functions/consolidate_masters/main.py:38-54 | The master path, the history path and the audit-log path are pairwise distinct. |
| ConsolidateMasters.HandleEvent | cloud_functions/consolidate_masters/main.py:83-109 | The reply and the new store are exactly those of `HandleEventRun` on the old store. |
| ConsolidateMasters.IrrelevantEventDoesNothing | cloud_functions/consolidate_masters/main.py:94-95 | An unrouted name replies "File not relevant", with no mastering and no audit. |
| ConsolidateMasters.CrashWritesNothing | cloud_functions/consolidate_masters/main.py:98-106 | When mastering raises, the event fails before the audit and writes nothing. |
| ConsolidateMasters.RelevantEventAuditsOnce | cloud_functions/consolidate_masters/main.py:98-109 | A relevant event replies "Mastering <entity>: <action>". The audit log becomes its prior text followed by exactly one JSON line. |
| ConsolidateMasters.EventFrame | cloud_functions/consolidate_masters/main.py:83-109 | An event changes no path other than the master, the history path and the audit log. |
| MdmConsolidator.Match | cloud_functions/mdm_consolidator/create_consolidated_masters.py:9-10 | A match's capture is shaped `dddd-dd-dd`. |
| MdmConsolidator.MatchSpec | cloud_functions/mdm_consolidator/create_consolidated_masters.py:47-49 | A name matches with date d exactly when it is the prefix, then d, then `.csv`, then anything. The match is anchored at the start only. |
| MdmConsolidator.MatchIgnoresTrailingText | cloud_functions/mdm_consolidator/create_consolidated_masters.py:47 | Text after `.csv` does not prevent a match. |
| MdmConsolidator.ListingPrefixWithSlash | cloud_functions/mdm_consolidator/create_consolidated_masters.py:42 | The listing prefix is the whole pattern text split on `/`; when the prefix holds a `/`, that is the prefix's own first piece. |
| MdmConsolidator.FolderListingPrefix | cloud_functions/mdm_consolidator/create_consolidated_masters.py:9-10 | A prefix `<folder>/<name>`, the form of both configured patterns, lists under `<folder>`. |
| MdmConsolidator.ListingFindsMatches | cloud_functions/mdm_consolidator/create_consolidated_masters.py:42 | When the prefix holds a `/`, every matching name starts with the listing prefix, so the listing misses no candidate. |
| MdmConsolidator.ListingMissesWithoutSlash | cloud_functions/mdm_consolidator/create_consolidated_masters.py:42-47 | When the prefix holds no `/`, the listing prefix is the whole regular-expression text, and no name under it matches. |
| MdmConsolidator.ChronoLeIsTotalPreorder | cloud_functions/mdm_consolidator/create_consolidated_masters.py:53 | Comparing the parsed dates is a total preorder. |
| MdmConsolidator.MatchedFilesFails | cloud_functions/mdm_consolidator/create_consolidated_masters.py:45-50 | The filter fails exactly when some matching name has a date `strptime` rejects. |
| MdmConsolidator.MatchedFilesSound | cloud_functions/mdm_consolidator/create_consolidated_masters.py:45-50 | On success every kept file is a listed name that matches, with its captured date, and that date is valid. |
| MdmConsolidator.MatchedFilesComplete | cloud_functions/mdm_consolidator/create_consolidated_masters.py:45-50 | On success every listed name that matches is kept. |
| MdmConsolidator.MatchedFilesNone | cloud_functions/mdm_consolidator/create_consolidated_masters.py:45-50 | When no listed name matches, the filter keeps nothing. |
| MdmConsolidator.MatchedFilesSpec | cloud_functions/mdm_consolidator/create_consolidated_masters.py:45-50 | The filter fails exactly when a matching name has a date `strptime` rejects. Otherwise it keeps exactly the matching names, each with its capture. |
| MdmConsolidator.FilterMatching | cloud_functions/mdm_consolidator/create_consolidated_masters.py:45-50 | The filter loop computes `MatchedFiles`. |
| MdmConsolidator.SortFiles | cloud_functions/mdm_consolidator/create_consolidated_masters.py:53 | The result is sorted by date and is a permutation of the matches. |
| MdmConsolidator.SortFilesStable | cloud_functions/mdm_consolidator/create_consolidated_masters.py:53 | Files with the same date keep their listing order, as `list.sort` guarantees. |
| MdmConsolidator.RecordOf | cloud_functions/mdm_consolidator/create_consolidated_masters.py:29 | A record holds only header columns, and only non-empty cells; an empty cell is NaN. |
| MdmConsolidator.RowOf | cloud_functions/mdm_consolidator/create_consolidated_masters.py:36 | The written row has one cell per column, holding that column's cell. |
| MdmConsolidator.FrameOf | cloud_functions/mdm_consolidator/create_consolidated_masters.py:29 | A frame has the table's columns and one record per row. |
| MdmConsolidator.ToTable | cloud_functions/mdm_consolidator/create_consolidated_masters.py:36 | A written table has the frame's columns and one row per record. |
| MdmConsolidator.RecordOfCell | cloud_functions/mdm_consolidator/create_consolidated_masters.py:29 | Reading a record's cell gives back the cell it was built from. |
| MdmConsolidator.FrameRoundTrip | cloud_functions/mdm_consolidator/create_consolidated_masters.py:29-36 | Converting a table to a frame and back is the identity. |
| MdmConsolidator.WithFileDate | cloud_functions/mdm_consolidator/create_consolidated_masters.py:70 | Every record gains `file_date` equal to the file's date. Nothing else in any record changes. |
| MdmConsolidator.KeepSpec | cloud_functions/mdm_consolidator/create_consolidated_masters.py:78 | The kept rows are exactly the master rows whose key is absent from the new file, as a sub-multiset. |
| MdmConsolidator.NewColumns | cloud_functions/mdm_consolidator/create_consolidated_masters.py:81 | The columns added by `concat` are exactly the new file's columns not already present. |
| MdmConsolidator.Load | cloud_functions/mdm_consolidator/create_consolidated_masters.py:67 | Loading fails exactly when the download is unreadable. |
| MdmConsolidator.Loads | cloud_functions/mdm_consolidator/create_consolidated_masters.py:65-67 | There is one load per file, in order. |
| MdmConsolidator.FoldFiles | cloud_functions/mdm_consolidator/create_consolidated_masters.py:62-81 | The loop over the sorted files computes `Fold` from the empty master. |
| MdmConsolidator.StepRecords | cloud_functions/mdm_consolidator/create_consolidated_masters.py:72-81 | After one step, the records are the kept master rows followed by the new rows. The count is the sum of the two. |
| MdmConsolidator.Collect | cloud_functions/mdm_consolidator/create_consolidated_masters.py:65-67 | When every load succeeds, there is one frame per load. |
| MdmConsolidator.CollectSpec | cloud_functions/mdm_consolidator/create_consolidated_masters.py:65-67 | Every collected frame is the corresponding load's. |
| MdmConsolidator.KeepConcat | cloud_functions/mdm_consolidator/create_consolidated_masters.py:78 | Filtering distributes over concatenation. |
| MdmConsolidator.KeepKeep | cloud_functions/mdm_consolidator/create_consolidated_masters.py:78 | Filtering twice equals filtering by the union of the key sets. |
| MdmConsolidator.FoldRecords | cloud_functions/mdm_consolidator/create_consolidated_masters.py:65-81 | A successful fold keeps the master rows whose key no file has, followed by the survivors of the files. |
| MdmConsolidator.FoldIsSurvivors | cloud_functions/mdm_consolidator/create_consolidated_masters.py:62-81 | From the empty master, the fold's records are exactly the survivors: each file's rows whose key no later file has. |
| MdmConsolidator.KeysOfConcat | cloud_functions/mdm_consolidator/create_consolidated_masters.py:81 | The keys of a concatenation are the union of the parts' keys. |
| MdmConsolidator.KeysOfKeep | cloud_functions/mdm_consolidator/create_consolidated_masters.py:78 | Filtering removes exactly the filtered keys. |
| MdmConsolidator.SurvivorKeys | cloud_functions/mdm_consolidator/create_consolidated_masters.py:65-81 | The consolidated key set is the union of all files' key sets. |
| MdmConsolidator.RowsWithKeyConcat | cloud_functions/mdm_consolidator/create_consolidated_masters.py:81 | Selecting one key's rows distributes over concatenation. |
| MdmConsolidator.RowsWithKeyAbsent | cloud_functions/mdm_consolidator/create_consolidated_masters.py:78 | A key absent from a frame selects no rows. |
| MdmConsolidator.RowsWithKeyKeep | cloud_functions/mdm_consolidator/create_consolidated_masters.py:78 | After filtering, a dropped key has no rows and a kept key keeps all of its rows. |
| MdmConsolidator.AllKeysContains | cloud_functions/mdm_consolidator/create_consolidated_masters.py:65-81 | Each file's keys are among all keys. |
| MdmConsolidator.LatestFileWins | cloud_functions/mdm_consolidator/create_consolidated_masters.py:65-81 | A key's consolidated rows are exactly its rows in the latest file containing it. |
| MdmConsolidator.LoadedFileDates | cloud_functions/mdm_consolidator/create_consolidated_masters.py:67-70 | Every record of each loaded frame carries its own file's `file_date`. |
| MdmConsolidator.KeyLeIsTotalPreorder | cloud_functions/mdm_consolidator/create_consolidated_masters.py:84 | Ordering by the key, with NaN last, is a total preorder. |
| MdmConsolidator.SortByKey | cloud_functions/mdm_consolidator/create_consolidated_masters.py:84 | The result has the same columns, permuted records sorted by the key, and the rows without a key last. |
| MdmConsolidator.CreateConsolidatedMaster | cloud_functions/mdm_consolidator/create_consolidated_masters.py:39-90 | For the listing under `file_pattern.split('/')[0]`, the result is `ConsolidatedFrom`. The bucket becomes `Uploaded`: the master path is written once, or nothing is written. |
| MdmConsolidator.NoMatchIsNone | cloud_functions/mdm_consolidator/create_consolidated_masters.py:55-57 | With no matching file, the result is `None` and nothing is uploaded. |
| MdmConsolidator.ListingWithoutSlashIsNone | cloud_functions/mdm_consolidator/create_consolidated_masters.py:42-57 | For a prefix with no `/`, the listing returns no matching name, so the result is `None` and nothing is uploaded. |
| MdmConsolidator.MatchIsNotNone | cloud_functions/mdm_consolidator/create_consolidated_masters.py:55-57 | With a matching file, the result is not `None`. |
| MdmConsolidator.ConsolidatedSpec | cloud_functions/mdm_consolidator/create_consolidated_masters.py:39-90 | The master's records are a permutation of the survivors of the date-sorted files. Its key set is the union of theirs, and the key is a column. |
| MdmConsolidator.ConsolidatedLatestWins | cloud_functions/mdm_consolidator/create_consolidated_masters.py:65-84 | In the uploaded master, a key's records are, up to order, exactly its records in the last date-sorted file that has it. |
| MdmConsolidator.ConsolidatedFileDates | cloud_functions/mdm_consolidator/create_consolidated_masters.py:65-81 | Every record of the uploaded master has a `file_date`, and it is the date of one of the sorted files. |
| MdmConsolidator.SurvivorsFrom | cloud_functions/mdm_consolidator/create_consolidated_masters.py:72-81 | Every surviving record comes from one of the files. |
| MdmConsolidator.RowsWithKeyPermutation | cloud_functions/mdm_consolidator/create_consolidated_masters.py:84 | Reordering records does not change which rows a key has, up to order. |
| MdmConsolidator.SameKeys | cloud_functions/mdm_consolidator/create_consolidated_masters.py:84 | Sorting does not change the key set. |
| History.HistoryText | cloud_functions/data_generator/main.py:106-132 | The `modification_history` column is printable `json.dumps` text. |
| History.EmptyHistoryText | cloud_functions/data_generator/main.py:106 | A row without changes holds `[]`. |
| Text.Split | cloud_functions/mdm_consolidator/create_consolidated_masters.py:42 | `str.split` gives at least one piece, none containing the separator. |
| Text.SplitFirstIsPrefix | cloud_functions/mdm_consolidator/create_consolidated_masters.py:42 | The first piece of a split is a prefix of the string. |
| Text.SplitJoin | cloud_functions/shared/utils.py:14-20 | Splitting joined pieces gives the pieces back. |
| Text.LowerChar | cloud_functions/data_generator/main.py:276 | An upper-case letter becomes the lower-case letter at the same place in the alphabet; other characters are kept. |
| Text.UpperChar | cloud_functions/generate_customers_daily/main.py:58 | A lower-case letter becomes an upper-case letter that lower-cases back to it; other characters are kept. |
| Text.UpperOfLower | cloud_functions/generate_customers_daily/main.py:58 | Upper-casing undoes lower-casing on upper-case letters. |
| Text.Upper | cloud_functions/generate_customers_daily/main.py:58 | `upper` gives the same text ignoring case, with no lower-case letter left. |
| Text.UpperIdempotent | cloud_functions/generate_customers_daily/main.py:58 | Upper-casing twice is upper-casing once. |
| Text.Capitalize | cloud_functions/data_generator/main.py:276 | `capitalize` gives the same text ignoring case; the first character is not lower-case and no later one is upper-case. |
| Text.CapitalizeIdempotent | cloud_functions/data_generator/main.py:276 | Capitalising twice is capitalising once. |
| Decimal.ValueOfDec | cloud_functions/generate_customers_daily/main.py:61 | The decimal text of a number reads back as that number. |
| Decimal.PaddedValue | cloud_functions/data_generator/main.py:87 | `str(i).zfill(w)` is all digits and reads back as `i`. |
| Decimal.PaddedInjective | cloud_functions/data_generator/main.py:87 | Distinct numbers give distinct zero-padded texts. |
| Decimal.PaddedLength | cloud_functions/generate_suppliers_daily/main.py:28 | Below `10^w`, the padded text has exactly `w` characters. |
| Decimal.DecLength | cloud_functions/data_generator/main.py:165 | A number in `[10^(k-1), 10^k)` has `k` digits. |
| Order.RowLeIsTotalOrder | cloud_functions/consolidate_masters/main.py:22 | Sorting by all columns is a total order on rows. |
| Order.SortBy | cloud_functions/consolidate_masters/main.py:22 | The result is sorted and is a permutation of the input. |
| Order.SortByStable | cloud_functions/mdm_consolidator/create_consolidated_masters.py:53 | The sort keeps the relative order of equal elements. |
| Order.SortByPermutation | cloud_functions/consolidate_masters/main.py:22 | Under a total order, two permutations of one multiset sort to the same sequence. |
| DataGenerator.CountryCode | cloud_functions/data_generator/main.py:48-65 | The result is the listed code for the 20 countries and `FR` otherwise. It is always two upper-case letters. |
| DataGenerator.VatNumber | cloud_functions/data_generator/main.py:67-70 | The result is the code followed by exactly the nine drawn digits. |
| DataGenerator.CustomerIdInjective | cloud_functions/data_generator/main.py:87 | Distinct numbers give distinct `C` identifiers. |
| DataGenerator.DupIdInjective | cloud_functions/data_generator/main.py:133 | Distinct indices give distinct `DUP` identifiers. |
| DataGenerator.DupIdNumbersItsOriginal | cloud_functions/data_generator/main.py:87-133 | A duplicate's number is its original's number minus one: `DUP` uses the 0-based index, `C` the 1-based one. |
| DataGenerator.InitialRows | cloud_functions/data_generator/main.py:83-108 | There is one row per draw, with id `C` + `zfill(i+1, 6)`, empty history and `last_modified` equal to now. The segment is one of four, and the VAT is 11 characters beginning with the country's code. |
| DataGenerator.InitialIdsDistinct | cloud_functions/data_generator/main.py:87 | The initial identifiers are pairwise distinct. |
| DataGenerator.EditedRecordsOneChange | cloud_functions/data_generator/main.py:119-131 | One edit changes the address or the company name (with a legal suffix) and `last_modified`. It appends exactly one matching history entry and changes nothing else. |
| DataGenerator.DuplicateRecordsOneChange | cloud_functions/data_generator/main.py:115-133 | A re-identified edited row records one change against its re-identified original. |
| DataGenerator.Duplicate | cloud_functions/data_generator/main.py:116-133 | One pass of the duplicate loop is an edit of the row with a fresh history, then an identifier rewrite. |
| DataGenerator.GenerateInitialB2bCustomers | cloud_functions/data_generator/main.py:72-137 | The result is the n originals followed by one duplicate per sampled index. Each duplicate is its original, edited once and renamed `DUP` + `zfill(idx, 6)`, with a one-entry history. |
| DataGenerator.InitialDuplicatesRecordOneChange | cloud_functions/data_generator/main.py:106-133 | Each initial duplicate's history is exactly one entry, for `address` or `company_name`, recording its one change. |
| DataGenerator.NewIdShape | cloud_functions/data_generator/main.py:165 | A new identifier is `NEW` followed by exactly the six digits of the drawn number. |
| DataGenerator.NewCustomer | cloud_functions/data_generator/main.py:161-183 | A new customer has the `NEW` id, `created_at == last_modified == now`, and one `created` history entry with old value `None`. |
| DataGenerator.NewClients | cloud_functions/data_generator/main.py:158-183 | The loop builds one new customer per draw, in order. |
| DataGenerator.ModifyRows | cloud_functions/data_generator/main.py:188-207 | Each sampled row is edited once. Every other row is unchanged. |
| DataGenerator.AppendDuplicates | cloud_functions/data_generator/main.py:210-232 | The rows are kept and followed by one edited copy per sampled index, renamed `DUP` + `zfill(idx, 6)` + `_day`. |
| DataGenerator.Grown | cloud_functions/data_generator/main.py:185 | The new customers are appended after the existing rows. |
| DataGenerator.ModifiedKeepsIds | cloud_functions/data_generator/main.py:191-207 | Editing the sampled rows leaves every `customer_id` where it was. |
| DataGenerator.EvolveCustomers | cloud_functions/data_generator/main.py:139-233 | The length becomes old plus new plus duplicates, and the new customers have `NEW` ids. Modified rows are edited once and the others are unchanged; the duplicates are edited copies of the modified frame. |
| DataGenerator.EvolveKeepsHistories | cloud_functions/data_generator/main.py:201-207 | Evolution keeps every old row's identifier. Its history only grows, by at most one entry. |
| DataGenerator.ProductName | cloud_functions/data_generator/main.py:276 | The name is the capitalised word followed by a space and the drawn suffix. |
| DataGenerator.SubcategoryTable | cloud_functions/data_generator/main.py:250-264 | Every category has exactly five subcategories. |
| DataGenerator.ProductIdInjective | cloud_functions/data_generator/main.py:248 | Distinct numbers give distinct `P` identifiers. |
| DataGenerator.CategoryColumns | cloud_functions/data_generator/main.py:266-272 | Per draw, a listed category and a subcategory from that category's own list. |
| DataGenerator.GenerateProducts | cloud_functions/data_generator/main.py:235-287 | There is one row per draw, with id `P` + `zfill(i+1, 5)` and a listed category. Its subcategory is in that category's list, and its name is a `ProductName`. |
| CustomersDaily.Currency | cloud_functions/generate_customers_daily/main.py:13-20 | The result is the listed currency, or `EUR` for other countries, and is always three letters. |
| CustomersDaily.Admitted | cloud_functions/generate_customers_daily/main.py:32-37 | The admitted countries are drawn from the stream, and none is excluded. |
| CustomersDaily.AdmittedPrefix | cloud_functions/generate_customers_daily/main.py:34-37 | What a prefix of the stream admits is a prefix of what the whole stream admits. |
| CustomersDaily.AdmittedGrowth | cloud_functions/generate_customers_daily/main.py:34-37 | Each further draw admits at most one more country. |
| CustomersDaily.ValidCountries | cloud_functions/generate_customers_daily/main.py:32-37 | The loop stops with exactly n countries: the first n admitted draws, none excluded. |
| CustomersDaily.Prefix2 | cloud_functions/generate_customers_daily/main.py:58 | `country[:2]` is a prefix of at most two characters. |
| CustomersDaily.DailyVatShape | cloud_functions/generate_customers_daily/main.py:58-61 | The VAT is the upper-cased prefix followed by the nine digits of the drawn number. |
| CustomersDaily.DailyVatPrefixIsNotTheCountryCode | cloud_functions/generate_customers_daily/main.py:58 | For Germany the prefix is `GE`, whereas the country code is `DE`. |
| CustomersDaily.ColumnsUpTo | cloud_functions/generate_customers_daily/main.py:39-74 | After k rounds, all sixteen columns have length k, and the country column is the first k countries. |
| CustomersDaily.ColumnsIdAt | cloud_functions/generate_customers_daily/main.py:59 | Row i's id is `C` + `zfill(i+1, 6)`. |
| CustomersDaily.ColumnsCurrencyAt | cloud_functions/generate_customers_daily/main.py:66 | Row i's currency is its country's currency. |
| CustomersDaily.ColumnsVatAt | cloud_functions/generate_customers_daily/main.py:58-61 | Row i's VAT is built from its country and its drawn number. |
| CustomersDaily.ColumnsFreshAt | cloud_functions/generate_customers_daily/main.py:70-74 | Row i has `created_at == last_modified == start_date`, a history of `[]` and one of the four segments. |
| CustomersDaily.GenerateInitialB2bCustomers | cloud_functions/generate_customers_daily/main.py:30-76 | All sixteen columns have n entries, built from the first n admitted countries, none excluded. |
| CustomersDaily.DailyIdsDistinct | cloud_functions/generate_customers_daily/main.py:59 | Distinct rows have distinct identifiers. |
| SuppliersDaily.SupplierIdLength | cloud_functions/generate_suppliers_daily/main.py:26-28 | For 1 ≤ i < 10^6, the id has seven characters. |
| SuppliersDaily.SupplierIdInjective | cloud_functions/generate_suppliers_daily/main.py:26-34 | Distinct numbers give distinct supplier identifiers. |
| SuppliersDaily.BaseSuppliers | cloud_functions/generate_suppliers_daily/main.py:34-50 | There is one row per draw, with id `S` + `zfill(i+1, 6)`, `created_at == last_modified == date`, an empty history and a listed service. |
| SuppliersDaily.EditedRecordsOneChange | cloud_functions/generate_suppliers_daily/main.py:61-71 | One edit changes the address or the name (with a legal form) and `last_modified`. It appends one matching history entry. |
| SuppliersDaily.Duplicate | cloud_functions/generate_suppliers_daily/main.py:58-73 | One pass of the loop is an edit with a fresh history, then the identifier rewrite. |
| SuppliersDaily.GenerateSuppliers | cloud_functions/generate_suppliers_daily/main.py:30-75 | Off Tuesdays the result is exactly the n base rows. On Tuesdays it is the base rows followed by one edited copy per sampled index, renamed `DUP` + `zfill(idx, 6)`. |
| SuppliersDaily.NoDuplicateIdsOffTuesday | cloud_functions/generate_suppliers_daily/main.py:34-75 | Base identifiers start with `S`, never with `DUP`. |
| SuppliersDaily.TuesdayDuplicatesRecordOneChange | cloud_functions/generate_suppliers_daily/main.py:48-73 | Each Tuesday duplicate has the `DUP` id and exactly one history entry, for `address` or `company_name`, recording its change. |
| ProductsDaily.GenerateProducts | cloud_functions/generate_products_daily/main.py:19-35 | There is exactly one row per draw. Row i has id `P` + `zfill(i+1, 5)` and `created_at` equal to yesterday. |
| ProductsDaily.ProductRow | cloud_functions/generate_products_daily/main.py:21-32 | Row i has id `P` + `zfill(i+1, 5)`, one of the three categories, a name ending in one of the five suffixes, and `created_at` equal to yesterday. |
| ProductsDaily.ProductRowsDistinct | cloud_functions/generate_products_daily/main.py:21 | Distinct rows have distinct identifiers. |

## Left out

Store and CSV:
- dataframes are tables of strings, with a small codec (header line, comma-separated cells, no quoting). pandas CSV quoting, type inference and NaN handling beyond "an empty cell is missing" are not modelled.
- Csv.Parse: a header with a repeated name is a parse failure. pandas instead renames the repeat (`a.1`).
- Cloud Storage clients, bucket names, content types and `blob.exists`: one abstract bucket, a map from path to text.
- A download of a missing blob raises in the code. The model returns `None`, and each caller's handling of the exception is modelled at the caller.

Sorting:
- ConsolidateMasters.Canonical: the code's `sort_values` over all columns is not guaranteed stable. The model sorts with a stable sort under a total order, so ties cannot occur. The digest is an uninterpreted function of the rendered text.
- MdmConsolidator.SortByKey: `sort_values` is not stable. The model is stable, and this contract states the order and the permutation only.

The mastering event:
- In `consolidate_masters.main`, a missing `name` in the event (a `KeyError`) is not modelled: the file name is a parameter.
- In `consolidate_masters.main`, logging is not modelled.
- `datetime.utcnow()`, `isoformat()` and `strftime`: the timestamps are parameters.

The consolidator:
- `mdm_consolidator.main`, and the constants for concrete bucket and master paths, are not modelled: the pattern, key and master path are parameters.
- `print` output is not modelled.
- `master_df.empty` is modelled as "no records". A file with a header but no rows therefore counts as empty.
- MdmConsolidator.Match: only the pattern's shape (a literal prefix, a ten-character date and `.csv`, anchored at the start) is modelled, not general regular expressions. The prefix is taken literally, so regular-expression metacharacters in it are not modelled.
- MdmConsolidator.Match: each `\d` is an ASCII digit `0`-`9`. Python's `re` also lets `\d` match other Unicode decimal digits (Arabic-Indic ones, say), which `strptime` then reads; the model skips such names where the source would process them.
- MdmConsolidator.Load: the `file_date` column holds the captured date text. The source writes `strftime("%Y-%m-%d")` of the parsed date, which agrees with the captured text only for ASCII digits and years of at least 1000.

The generators:
- Faker, `random` and `numpy.random`: the draws are inputs, one datatype value per row. Samples are inputs that must be distinct indices below the frame's length.
- Counts computed from rates (`int(n * rate)`) are passed as the sample lengths.
- Prices, costs, weights and every other floating-point column are left out.
- DataGenerator.EvolveCustomers: the stored history is the structured list, not its `json.loads`/`json.dumps` text. `History.HistoryText` gives the text.
- CustomersDaily.ValidCountries: it requires the draw stream to contain at least n admitted countries. The code draws until it has them and would loop for ever otherwise.
- CustomersDaily.ColumnsUpTo: the history column holds the text `[]` directly. This column is built only from empty histories.
- SuppliersDaily.GenerateSuppliers: the weekday of `date` is an input, not computed from the date.
- Text.Upper: upper-casing is ASCII only. Unicode case mapping is not modelled.
- DataGenerator.EditedRecordsOneChange: one timestamp string stands for both the history entry's `isoformat()` date (with a `T`) and the `last_modified` value that `to_csv` writes (with a space); the two renderings are not distinguished.
- SuppliersDaily.EditedRecordsOneChange: as for the customers, one timestamp string stands for both the history entry's `isoformat()` date and the `last_modified` rendering.
- Text.Capitalize: capitalisation is ASCII only. Unicode case mapping is not modelled.
- The generators' upload wrappers and entry points are not part of this model: `upload_to_gcs`, `download_from_gcs`, `generate_and_upload_data`, `cloud_function_entry`, the `generate_*_daily` request handlers, and `generate_daily_orders` with its arithmetic.
- `shared/config.py` and the Airflow DAG are not part of this model.

Two behaviours of the code may surprise a reader; both are modelled as written.
- The daily VAT prefix is the first two letters of the country's name, not its ISO code (`DailyVatPrefixIsNotTheCountryCode`).
- A duplicate's number is its original's 0-based index, one less than the original's own number (`DupIdNumbersItsOriginal`).
