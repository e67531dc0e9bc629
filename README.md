# Five9 user-management scripts, modelled in Dafny

This project models three scripts that work on the users of a Five9
contact-centre domain through its configuration web service:

- `capture_user_detail_to_csv.py` exports user details to CSV. It does so in
  one of three ways: for a list of target users, in chunks by username
  prefix (characters or zero-padded numbers), or in one batch. When no
  permissions are configured, it discovers the agent permission types from
  the fetched users. The CSV columns are computed from the first user:
  - the configured general-info fields;
  - one `media_enabled_<type>` column per media type;
  - one `<role>_<permission>` column per requested permission type.

  Every user is then projected onto those columns.
- `bulk_user_federationId_update_from_csv.py` reads (userName,
  federationId) rows into a dictionary, in which a later row overrides an
  earlier one. It splits the domain's users into update candidates and
  skipped users, using the sentinel value `"skip"`. For each candidate, it
  sets the federationId, strips the e-mail address and submits the user
  with `modifyUser`. It sorts the results into updated and errored users.
  When there were errors, it writes a pipe-delimited error log under a
  timestamped name.
- `migration_user_prep.py` handles every active user as follows:
  - it visits the supervisor, agent and admin roles in that order;
  - in each role, it turns off the targeted permissions that are on;
  - it records the types it turned off;
  - when a role is missing, it drops the user.

  A user with recorded types is submitted, unless the run is a dry run. The
  user also gets a `domain|userName|[types]` audit line.

## How the model is organised

Modules:

- `Common` holds `Option`/`Result` and Python's insertion-ordered
  dictionaries, which are sequences of key/value pairs (`Keys`, `Get`,
  `Set`). It also holds append-if-absent (`AppendNew`), which is used for
  CSV columns, discovered types and dictionary key order.
- `Users` holds the user record as the scripts see it.
- `ExportSchema` covers `compute_fieldnames`, the row dictionary filled for
  one user, and `csv.DictWriter.writerow`.
- `Prefixes` covers the username prefixes of chunked mode.
- `ExportFile` covers `write_user_chunk` on a file value.
- `Capture` covers the chunk loop, permission discovery and
  `capture_user_details`.
- `FederationUpdate` covers `update_user_federation_ids`, the error-log path
  and the error log.
- `PermissionSweep` covers the sweep of `migration_user_prep.py`.

Each loop of the scripts is a Dafny `method` with a `while` loop. Each such
method is proved equal to a specification function that is defined element
by element "from the back". Lemmas state the properties of those functions.

The SOAP calls are function-valued parameters:

- `getUsersInfo(pattern)` returns users or a fault;
- `getUserInfo(name)` returns a user, or None when it raised;
- `modifyUser(generalInfo)` returns a value or a zeep fault.

The unfiltered `getUsersInfo()` is a list parameter. The clock is a
timestamp parameter. The CSV file is a value: whether it exists, plus its
header and record lines.

Three behaviours of the code are easy to misread; the model states them:

- In `migration_user_prep.py`, each role's loop sits in a `try` whose
  `except AttributeError` ends with `continue`. So a user without one of the
  three roles is dropped. Nothing is submitted or audited for that user,
  even when an earlier role was flipped (see
  `PermissionSweep.MissingRoleDropsUser` and
  `PermissionSweep.MissingAgentExample`).
- In the federation update, a user is a candidate when
  `.get(userName, "skip") != "skip"`. So a user whose mapped value is the
  literal `"skip"` is skipped just like a user that no row names
  (`FederationUpdate.CandidateByRows`).
- The union of updated, errored and skipped users is stated as a
  multiset, because the fetched list itself may repeat a user
  (`FederationUpdate.PartitionExact`).

## Model

| member | source | states |
|---|---|---|
| Common.Get | examples/user_management/capture_user_detail_to_csv.py:87 | `dict.get`: a value exactly when the key is present, and the pair is in the dictionary |
| Common.Set | examples/user_management/bulk_user_federationId_update_from_csv.py:28 | `d[k] = v`: a new key goes to the end of the key order, an existing key keeps its place, and only `k` changes its value |
| Common.FromKeys | examples/user_management/capture_user_detail_to_csv.py:72 | `{fn: "" for fn in fieldnames}`: the keys are the columns in first-occurrence order, and each maps to the given value |
| Common.AppendNew | examples/user_management/capture_user_detail_to_csv.py:34-38 | append-if-absent keeps the existing list as a prefix and contains exactly the old and the candidate elements |
| Common.AppendNewNoDuplicates | examples/user_management/capture_user_detail_to_csv.py:259-261 | appending only absent elements to a duplicate-free list keeps it duplicate-free |
| Users.RoleOf | examples/user_management/capture_user_detail_to_csv.py:84-93 | a role is found exactly when the container has it with a non-None value, and it is that value |
| Users.Field | examples/user_management/capture_user_detail_to_csv.py:73-77 | an attribute is missing exactly when it is none of the named fields and not among the other attributes |
| ExportSchema.MediaColumns | examples/user_management/capture_user_detail_to_csv.py:26-27 | one `media_enabled_<type>` column per media type, in order |
| ExportSchema.SampleMediaColumns | examples/user_management/capture_user_detail_to_csv.py:24-33 | the sample contributes media columns only when media types are requested and present; a missing attribute is swallowed |
| ExportSchema.RoleColumns | examples/user_management/capture_user_detail_to_csv.py:35-36 | one `<role>_<perm>` column per requested type of the role |
| ExportSchema.PermissionColumns | examples/user_management/capture_user_detail_to_csv.py:34-36 | every requested (role, type) pair yields its `<role>_<perm>` column |
| ExportSchema.Fieldnames | examples/user_management/capture_user_detail_to_csv.py:19-39 | the column list starts with the general fields, unchanged, and contains all of them |
| ExportSchema.FieldnamesColumns | examples/user_management/capture_user_detail_to_csv.py:19-39 | the columns are exactly the general, media and permission columns, and none after the general fields repeats an earlier one |
| ExportSchema.FieldnamesHavePermissionColumns | examples/user_management/capture_user_detail_to_csv.py:34-38 | every requested `<role>_<perm>` is a column |
| ExportSchema.FieldnamesLayout | examples/user_management/capture_user_detail_to_csv.py:23-38 | media columns come straight after the general fields and before the permission columns, and there are none unless requested and present |
| ExportSchema.ComputeFieldnames | examples/user_management/capture_user_detail_to_csv.py:19-39 | the column-appending loops compute `Fieldnames` |
| ExportSchema.AppendMediaColumns | examples/user_management/capture_user_detail_to_csv.py:26-29 | the media loop appends each new media column once |
| ExportSchema.AppendPermissionColumns | examples/user_management/capture_user_detail_to_csv.py:34-38 | the role loop appends each new permission column once, role by role |
| ExportSchema.AppendRoleColumns | examples/user_management/capture_user_detail_to_csv.py:35-38 | the inner loop appends each new `<role>_<perm>` once |
| ExportSchema.GeneralCells | examples/user_management/capture_user_detail_to_csv.py:73-77 | each requested attribute gets the record's value, or "" when reading it raises; other cells are unchanged |
| ExportSchema.MediaTypeCells | examples/user_management/capture_user_detail_to_csv.py:78-83 | (corrected) the media loop keeps the row's keys; an existing media column gets the flag of the last media type naming it |
| ExportSchema.MediaTypeCellsAsWritten | examples/user_management/capture_user_detail_to_csv.py:80-81 | (as written) the media loop adds a key for every media type, whether or not it is a column |
| ExportSchema.MediaCells | examples/user_management/capture_user_detail_to_csv.py:78-83 | media cells never add a key to the row |
| ExportSchema.ProjectedRowAsWritten | examples/user_management/capture_user_detail_to_csv.py:72-108 | (as written) every column is a key of the row; without media types the row is the guarded one |
| ExportSchema.PermissionListCells | examples/user_management/capture_user_detail_to_csv.py:98-108 | a requested permission's value goes into its column only if that column exists; the last matching permission wins |
| ExportSchema.RolePermissionCells | examples/user_management/capture_user_detail_to_csv.py:84-97 | a missing or None role leaves the row as it is; the row's keys never change |
| ExportSchema.PermissionCells | examples/user_management/capture_user_detail_to_csv.py:84-108 | the loop over requested roles keeps the row's keys |
| ExportSchema.PermissionCellsGet | examples/user_management/capture_user_detail_to_csv.py:84-108 | the cell a column holds after the permission loops is the one `PermissionCellOf` names |
| ExportSchema.ProjectRow | examples/user_management/capture_user_detail_to_csv.py:72-108 | the row-filling loops compute the projected row |
| ExportSchema.FillGeneralCells | examples/user_management/capture_user_detail_to_csv.py:73-77 | the general-info loop computes `GeneralCells` |
| ExportSchema.FillMediaCells | examples/user_management/capture_user_detail_to_csv.py:78-83 | the guarded media loop computes `MediaTypeCells` |
| ExportSchema.FillPermissionCells | examples/user_management/capture_user_detail_to_csv.py:84-108 | the role loop computes `PermissionCells` |
| ExportSchema.FillRolePermissionCells | examples/user_management/capture_user_detail_to_csv.py:98-108 | the permission loop of one role computes `PermissionListCells` |
| ExportSchema.ExtraKeys | examples/user_management/capture_user_detail_to_csv.py:109 | the row keys that are not columns are exactly those `DictWriter` rejects |
| ExportSchema.WriteRow | examples/user_management/capture_user_detail_to_csv.py:68-109 | `writerow` succeeds exactly when every key is a column; then it writes one cell per column (missing ones as ""); otherwise it raises, naming the extra keys |
| ExportSchema.ProjectedRowWritable | examples/user_management/capture_user_detail_to_csv.py:72-109 | the projected row has exactly the columns as keys, so `writerow` never raises on it |
| ExportSchema.ProjectedCell | examples/user_management/capture_user_detail_to_csv.py:72-108 | each column of the projected row holds the general, media or permission value that column says |
| ExportSchema.RecordCellsWritten | examples/user_management/capture_user_detail_to_csv.py:72-109 | the written record is the column-by-column record of the user |
| ExportSchema.WriteRowCells | examples/user_management/capture_user_detail_to_csv.py:109 | a row whose keys are all columns is written as the cells stored under the columns |
| ExportSchema.AsWrittenMediaCellRaises | examples/user_management/capture_user_detail_to_csv.py:78-83 | as written, a media type without a column adds an extra key, and `writerow` raises |
| ExportSchema.AsWrittenLaterUserRaises | examples/user_management/capture_user_detail_to_csv.py:184-215 | as written, a later user with a media type the first user lacked makes `writerow` raise |
| ExportSchema.MediaTypeCellsAgree | examples/user_management/capture_user_detail_to_csv.py:78-83 | when every media type has a column, the unguarded media write equals the guarded one |
| ExportSchema.AsWrittenAgreesUnlessRaising | examples/user_management/capture_user_detail_to_csv.py:72-109 | as written, `writerow` succeeds exactly when every media type of the user has a column, and whenever it succeeds the row equals the guarded row |
| Prefixes.ZeroPad | examples/user_management/capture_user_detail_to_csv.py:157-160 | `f"{n:0{w}d}"` is all digits, reads back as `n`, and has exactly `w` characters when `w >= 1` and `n < 10^w` |
| Prefixes.DigitsRoundTrip | examples/user_management/capture_user_detail_to_csv.py:158 | reading back the digits of `n` gives `n` |
| Prefixes.LeadingZeros | examples/user_management/capture_user_detail_to_csv.py:158 | zero padding does not change the value |
| Prefixes.DigitsLength | examples/user_management/capture_user_detail_to_csv.py:158 | a number below 10^w has at most `w` digits |
| Prefixes.NumericPrefixes | examples/user_management/capture_user_detail_to_csv.py:147-161 | a negative start counts from 0; a start at or past 10^w aborts; otherwise there is one w-digit prefix per number from the start to 10^w - 1 |
| Prefixes.NumericPrefixesIncreasing | examples/user_management/capture_user_detail_to_csv.py:157-160 | the numeric prefixes are strictly increasing as numbers, so none repeats |
| Prefixes.NumericPrefixesNearEnd | examples/user_management/capture_user_detail_to_csv.py:148-160 | width 3 from 998 gives "998" and "999"; from 1000 it aborts |
| Prefixes.CharPrefixes | examples/user_management/capture_user_detail_to_csv.py:162-164 | one single-character prefix per character of the alphabet, in order; the prefixes repeat exactly when the alphabet does |
| Prefixes.Pattern | examples/user_management/capture_user_detail_to_csv.py:169-173 | the pattern is the prefix followed by `*` (numeric) or `.*` (characters) |
| Prefixes.PatternsDistinct | examples/user_management/capture_user_detail_to_csv.py:162-173 | distinct prefixes give distinct patterns |
| ExportFile.Records | examples/user_management/capture_user_detail_to_csv.py:71-109 | one record line per user |
| ExportFile.RecordsAt | examples/user_management/capture_user_detail_to_csv.py:71-109 | the i-th record line is the column-wise record of the i-th user |
| ExportFile.RecordsConcat | examples/user_management/capture_user_detail_to_csv.py:207-215 | the records of two batches written one after the other are the records of both |
| ExportFile.WriteUserChunk | examples/user_management/capture_user_detail_to_csv.py:42-109 | an empty chunk leaves the file alone; otherwise the file exists, is truncated unless appending, gets a header unless appending to an existing file, then one record per user; a file that does not exist has no lines before or after |
| ExportFile.ExportedFile | examples/user_management/capture_user_detail_to_csv.py:42-70 | an export keeps the rule that a file that does not exist has no lines |
| ExportFile.WriteRecord | examples/user_management/capture_user_detail_to_csv.py:72-109 | one user's projected row is written as its column-wise record |
| ExportFile.HeaderCount | examples/user_management/capture_user_detail_to_csv.py:63-70 | a file has no more header lines than lines |
| ExportFile.HeaderCountRecords | examples/user_management/capture_user_detail_to_csv.py:63-70 | appending record lines adds no header |
| ExportFile.ExportedFileAppend | examples/user_management/capture_user_detail_to_csv.py:189-216 | appending a further batch under the first user's columns gives the export of both batches |
| ExportFile.ExportedFileShape | examples/user_management/capture_user_detail_to_csv.py:265-276 | a non-empty export has exactly one header, first, then one record per user, each with one cell per column |
| Capture.ChunkUsersMember | examples/user_management/capture_user_detail_to_csv.py:169-188 | a user is exported exactly when some prefix query returned it; failed and empty queries contribute nothing |
| Capture.ChunkUsersEmpty | examples/user_management/capture_user_detail_to_csv.py:169-188 | no user is retrieved exactly when every prefix query raised or came back empty |
| Capture.CaptureChunks | examples/user_management/capture_user_detail_to_csv.py:144-221 | the chunk loop counts the exported users, and leaves the export of all chunk users under the first user's columns |
| Capture.NextPrefix | examples/user_management/capture_user_detail_to_csv.py:169-219 | one prefix of the loop extends the retrieved users by that query's answer and keeps the file the export of them |
| Capture.TakeChunk | examples/user_management/capture_user_detail_to_csv.py:175-219 | one prefix answer: a failed or empty chunk changes nothing, a non-empty one extends the export |
| Capture.WriteFresh | examples/user_management/capture_user_detail_to_csv.py:189-205 | the first non-empty chunk fixes the columns from its first user and writes the file afresh |
| Capture.AppendChunk | examples/user_management/capture_user_detail_to_csv.py:206-216 | a later chunk appends its records under the fixed columns |
| Capture.PermissionTypesMember | examples/user_management/capture_user_detail_to_csv.py:253-258 | a type is collected exactly when it is non-empty and some permission carries it |
| Capture.DiscoveredCovers | examples/user_management/capture_user_detail_to_csv.py:234-261 | every agent permission type of every user is discovered |
| Capture.DiscoveredShape | examples/user_management/capture_user_detail_to_csv.py:259-261 | discovery requests at most the "agent" role, each type once |
| Capture.DiscoveredNothing | examples/user_management/capture_user_detail_to_csv.py:230-261 | discovery requests nothing exactly when no agent role has a non-empty type |
| Capture.DiscoveredTypes | examples/user_management/capture_user_detail_to_csv.py:243-261 | the discovered types are exactly the non-empty agent types of some user |
| Capture.CollectTypes | examples/user_management/capture_user_detail_to_csv.py:253-261 | the permission loop appends each new non-empty type |
| Capture.CollectUserTypes | examples/user_management/capture_user_detail_to_csv.py:235-261 | one user's role loop appends the new types of its agent role |
| Capture.DiscoverAgentPermissions | examples/user_management/capture_user_detail_to_csv.py:230-261 | the discovery loop computes `DiscoveredPermissions` |
| Capture.CaptureSingleBatch | examples/user_management/capture_user_detail_to_csv.py:225-276 | no users leaves the file alone; otherwise the configured or discovered permissions are used and the file is the export of all users |
| Capture.Retrieved | examples/user_management/capture_user_detail_to_csv.py:127-135 | the targeted users are those `getUserInfo` returned, in order; a call that raised is skipped |
| Capture.CaptureUserDetails | examples/user_management/capture_user_detail_to_csv.py:112-276 | targeted, chunked (or range-aborted) and single-batch modes each leave the stated export and outcome |
| FederationUpdate.Strip | examples/user_management/bulk_user_federationId_update_from_csv.py:54 | `strip` never lengthens a string, and keeps one that is empty or already starts and ends with non-whitespace |
| FederationUpdate.StripEnds | examples/user_management/bulk_user_federationId_update_from_csv.py:54 | the result of `strip` is empty, or starts and ends with a non-whitespace character |
| FederationUpdate.StripWindow | examples/user_management/bulk_user_federationId_update_from_csv.py:54 | `strip` keeps a window of the input with only whitespace around it |
| FederationUpdate.StripIdempotent | examples/user_management/bulk_user_federationId_update_from_csv.py:54 | stripping twice equals stripping once |
| FederationUpdate.LookupIsLastRow | examples/user_management/bulk_user_federationId_update_from_csv.py:24-28 | the dictionary maps each name to the federationId of its last row |
| FederationUpdate.LastFederationIdRow | examples/user_management/bulk_user_federationId_update_from_csv.py:24-28 | a name is absent exactly when no row names it; otherwise its value is that of a row naming it that no later row names |
| FederationUpdate.LookupKeys | examples/user_management/bulk_user_federationId_update_from_csv.py:24-28 | the dictionary's keys are the row names in order of first appearance |
| FederationUpdate.BuildLookup | examples/user_management/bulk_user_federationId_update_from_csv.py:24-28 | the reading loop builds `Lookup` |
| FederationUpdate.CandidateByRows | examples/user_management/bulk_user_federationId_update_from_csv.py:36 | a user is a candidate exactly when some row names it and its last row's value is not "skip" |
| FederationUpdate.PartitionMultiset | examples/user_management/bulk_user_federationId_update_from_csv.py:32-39 | together, candidates and skipped users are the fetched users, with multiplicities |
| FederationUpdate.PartitionSides | examples/user_management/bulk_user_federationId_update_from_csv.py:35-39 | the update list holds only candidates, and the skip list none |
| FederationUpdate.PartitionExact | examples/user_management/bulk_user_federationId_update_from_csv.py:32-39 | every fetched user lands in exactly one list, the first holding exactly the candidates; the counts add up |
| FederationUpdate.Partition | examples/user_management/bulk_user_federationId_update_from_csv.py:32-39 | the partition loop computes `Candidates` and `Skipped` |
| FederationUpdate.Prepare | examples/user_management/bulk_user_federationId_update_from_csv.py:53-54 | the submitted user has the mapped federationId; its name, active flag, other attributes, media types, roles and error message are unchanged, and its EMail is no longer than before |
| FederationUpdate.PrepareChangesOnly | examples/user_management/bulk_user_federationId_update_from_csv.py:53-54 | preparing sets the federationId and strips the EMail, and changes nothing else |
| FederationUpdate.PrepareIdempotent | examples/user_management/bulk_user_federationId_update_from_csv.py:53-54 | preparing twice with the same value equals preparing once |
| FederationUpdate.SubmitOnce | examples/user_management/bulk_user_federationId_update_from_csv.py:47-60 | a candidate adds exactly one value or one error, a non-candidate nothing; an error carries the mapped id, the stripped EMail and a message |
| FederationUpdate.SubmittedAccounting | examples/user_management/bulk_user_federationId_update_from_csv.py:41-66 | when all users are candidates, updated plus errors counts each once |
| FederationUpdate.SubmittedErrors | examples/user_management/bulk_user_federationId_update_from_csv.py:58-60 | the error list holds exactly the prepared users whose submission faulted |
| FederationUpdate.SubmittedUpdated | examples/user_management/bulk_user_federationId_update_from_csv.py:55-56 | the updated list holds exactly the values submissions returned |
| FederationUpdate.SubmitOne | examples/user_management/bulk_user_federationId_update_from_csv.py:48-60 | one loop iteration yields `UpdatedBy` and `FaultedBy` |
| FederationUpdate.SubmitUpdates | examples/user_management/bulk_user_federationId_update_from_csv.py:47-66 | the update loop, which a fault does not stop, computes `Submitted` |
| FederationUpdate.UpdateUserFederationIds | examples/user_management/bulk_user_federationId_update_from_csv.py:12-67 | returns the skipped users and the submission outcomes of the candidates; updated + errors + skipped counts every fetched user |
| FederationUpdate.LastIndexOf | examples/user_management/bulk_user_federationId_update_from_csv.py:123 | the index of the last occurrence, None exactly when there is none |
| FederationUpdate.LastIndexOfConcat | examples/user_management/bulk_user_federationId_update_from_csv.py:123 | the last occurrence in `a + b` is in `b` when `b` has one, else in `a` |
| FederationUpdate.Name | examples/user_management/bulk_user_federationId_update_from_csv.py:123 | `Path.name` holds no '/' |
| FederationUpdate.DirNameRoundTrip | examples/user_management/bulk_user_federationId_update_from_csv.py:129 | a path is its directory plus its name; `with_name` keeps the directory and sets the name |
| FederationUpdate.Suffix | examples/user_management/bulk_user_federationId_update_from_csv.py:127 | `Path.suffix` is empty or a '.' followed by at least one character and no other '.' |
| FederationUpdate.StemSuffix | examples/user_management/bulk_user_federationId_update_from_csv.py:129 | a name is its stem followed by its suffix |
| FederationUpdate.SuffixOfSuffixed | examples/user_management/bulk_user_federationId_update_from_csv.py:129 | a non-empty base plus a suffix has that suffix and that base as its stem |
| FederationUpdate.ErrorLogPathAsWritten | examples/user_management/bulk_user_federationId_update_from_csv.py:123-131 | (as written) the path computation raises exactly when the log name has no suffix; otherwise the path stays under the log's directory |
| FederationUpdate.ErrorLogPath | examples/user_management/bulk_user_federationId_update_from_csv.py:123-131 | (corrected) the path stays under the log's directory and equals the script's path whenever the name has a suffix |
| FederationUpdate.AsWrittenNoSuffixRaises | examples/user_management/bulk_user_federationId_update_from_csv.py:130-131 | as written, an error-log path without a suffix raises instead of naming a log |
| FederationUpdate.ErrorLogPathShape | examples/user_management/bulk_user_federationId_update_from_csv.py:126-131 | (corrected) the log stays in its directory, is named `<stem>_<timestamp><suffix>` (".csv" when there was none), and agrees with the script whenever the script does not raise |
| FederationUpdate.ErrorRow | examples/user_management/bulk_user_federationId_update_from_csv.py:141-146 | one cell per header column |
| FederationUpdate.SplitFields | examples/user_management/bulk_user_federationId_update_from_csv.py:139 | a line splits into at least one field |
| FederationUpdate.SplitLast | examples/user_management/bulk_user_federationId_update_from_csv.py:139 | splitting `a|b`, where `b` has no delimiter, gives the fields of `a` and then `b` |
| FederationUpdate.RenderRoundTrip | examples/user_management/bulk_user_federationId_update_from_csv.py:139-146 | splitting a written row on '|' gives its cells back when no cell holds '|' |
| FederationUpdate.ErrorRowReadBack | examples/user_management/bulk_user_federationId_update_from_csv.py:139-146 | an error user's written line splits back into its userName, federationId and errorMessage when none holds '|' |
| FederationUpdate.ErrorLogHeaderLine | examples/user_management/bulk_user_federationId_update_from_csv.py:134-140 | the header line is `userName|federationId|errorMessage` |
| FederationUpdate.WriteErrorLog | examples/user_management/bulk_user_federationId_update_from_csv.py:133-146 | the log holds the header line, then one `|`-joined line per error user in order |
| FederationUpdate.FederationMain | examples/user_management/bulk_user_federationId_update_from_csv.py:111-146 | the run's lists as above; an error log exists exactly when there were errors, at the intended path, with the header line and one `|`-joined line per error; when the log name has a suffix, that path is the one the script computes |
| PermissionSweep.Flip | examples/user_management/migration_user_prep.py:40-57 | the sweep keeps the list's length |
| PermissionSweep.FlipChangesOnlyTargets | examples/user_management/migration_user_prep.py:40-57 | a permission changes exactly when it is targeted, keeps its type, and is not targeted afterwards |
| PermissionSweep.FlipIdempotent | examples/user_management/migration_user_prep.py:41-57 | a second sweep changes nothing and records nothing |
| PermissionSweep.NothingTargetedRecordsNothing | examples/user_management/migration_user_prep.py:41-57 | a list with no targeted permission records nothing |
| PermissionSweep.FlippedTypesRecord | examples/user_management/migration_user_prep.py:40-57 | only target types are recorded, at most one per permission, and nothing is recorded exactly when nothing changes |
| PermissionSweep.FlippedTypesPerTarget | examples/user_management/migration_user_prep.py:40-57 | one type is recorded per targeted permission |
| PermissionSweep.FlippedTypesCount | examples/user_management/migration_user_prep.py:40-57 | the number of recorded types equals the number of permissions the sweep changed |
| PermissionSweep.FlipRole | examples/user_management/migration_user_prep.py:40-57 | the permission loop computes `Flip` and `FlippedTypes` |
| PermissionSweep.RoleOfWithRole | examples/user_management/migration_user_prep.py:40-47 | flipping inside one role leaves every other role as it was |
| PermissionSweep.SweepUserVisited | examples/user_management/migration_user_prep.py:32-96 | a user visited through all three roles has each role flipped, and records supervisor, agent and admin types in that order |
| PermissionSweep.SweepUserTouchesOnlyTargets | examples/user_management/migration_user_prep.py:38-96 | no other role, general info or error message changes |
| PermissionSweep.SweepUserIdempotent | examples/user_management/migration_user_prep.py:32-96 | sweeping a visited user again records nothing and changes nothing |
| PermissionSweep.SweepOne | examples/user_management/migration_user_prep.py:32-96 | the per-user loop computes `SweepUser` |
| PermissionSweep.ListRepr | examples/user_management/migration_user_prep.py:107 | `repr` of the list is bracketed, and is `[]` exactly for the empty list |
| PermissionSweep.Items | examples/user_management/migration_user_prep.py:107 | the quoted items are empty exactly for the empty list |
| PermissionSweep.ItemsChars | examples/user_management/migration_user_prep.py:107 | besides quotes, commas and spaces, the items hold only characters of the recorded types |
| PermissionSweep.AuditLine | examples/user_management/migration_user_prep.py:105-108 | the audit line starts with `domain|`, ends with a newline, and holds no other newline when the domain, name and types hold none |
| PermissionSweep.AuditLineExample | examples/user_management/migration_user_prep.py:105-108 | the audit line is `domain|userName|['Type']` plus a newline |
| PermissionSweep.Decide | examples/user_management/migration_user_prep.py:98-108 | a user is audited exactly when visited with something recorded, and submitted exactly when audited and not a dry run |
| PermissionSweep.MissingRoleDropsUser | examples/user_management/migration_user_prep.py:59-96 | a user missing a role is neither submitted nor audited |
| PermissionSweep.MissingAgentExample | examples/user_management/migration_user_prep.py:65-80 | a supervisor flip is recorded, yet a user without an agent role is dropped |
| PermissionSweep.SweepDryRun | examples/user_management/migration_user_prep.py:98-101 | a dry run submits nothing; otherwise every audited user is submitted |
| PermissionSweep.SweepAuditIgnoresDryRun | examples/user_management/migration_user_prep.py:98-108 | the audit lines do not depend on the dry-run flag |
| PermissionSweep.DryRunNeverFaults | examples/user_management/migration_user_prep.py:100-101 | a dry run calls `updateUser` for nobody, so no user faults |
| PermissionSweep.Handle | examples/user_management/migration_user_prep.py:32-108 | handling one user faults exactly when it is submitted and `updateUser` raises, and then adds nothing; otherwise it yields `UpdateOf` and `AuditOf` |
| PermissionSweep.SweepNext | examples/user_management/migration_user_prep.py:32-108 | one loop step either faults on that user or extends the submitted users and audit lines to the next prefix of users |
| PermissionSweep.SweepAll | examples/user_management/migration_user_prep.py:30-108 | the user loop stops at the first user whose `updateUser` raises; it submits and audits exactly the users before that one (`Sweep` of that prefix), or all of them when none faults |

## Left out

- The SOAP client, authentication, argument parsing, JSON config loading, `tqdm` progress, logging, `print` and `time.sleep` are left out. The SOAP calls are parameters, as described above.
- The filesystem is modelled only as the value of one CSV file. Directory creation, open modes beyond truncate/append, and CSV quoting of cells that hold the delimiter, quotes or newlines are left out.
- Python objects are mutated in place and shared; the model works on values. The aliasing left out includes the flipped permissions of a dropped user, the prepared user placed on the error list, and the mutable default argument `target_permissions={}` that discovery fills.
- Capture.CaptureUserDetails: a fault from the single-batch `getUsersInfo()` is not caught by the script and ends it; this crash is not modelled.
- Users and roles may arrive as zeep objects or as dicts; the `isinstance` branches that tell them apart are modelled by one record shape. Roles are a list of (name, optional role) pairs, and a permission's type and value are optional.
- Prefixes.NumericPrefixes: the width is a natural number. A negative width, which gives a float power of ten in Python, is not modelled.
- FederationUpdate.Strip: strips ASCII whitespace and 0x1C-0x1F only. Other Unicode whitespace that `str.strip` also removes is not modelled.
- FederationUpdate.Name: `pathlib` normalisation (repeated or trailing slashes, ".", Windows paths) is not modelled; paths are split at the last '/'.
- FederationUpdate.UpdateUserFederationIds: a missing "userName"/"federationId" CSV column (KeyError), a non-string EMail, and exceptions other than a zeep fault (which end the script) are not modelled.
- The timestamp from `datetime.now()` is a parameter, assumed to hold no '/'.
- The `--simulationmode` flag of the federation script is parsed and printed but changes nothing, so it is not modelled.
- The `--dry_run` flag of the sweep defaults to True with `store_true`, so the script can never really submit. The model takes the flag as a parameter.
- PermissionSweep.SweepUser, ExportSchema.PermissionListCells, Capture.PermissionTypes: a role whose `permissions` is None raises TypeError on iteration, which nothing catches, and ends the script; this is not modelled (`permissions` is a list in the model). A permission object that lacks the `type` or `value` attribute altogether would raise AttributeError and drop the user; this is not modelled either. zeep objects carry every schema attribute, possibly None, and a None type or value never matches.
- ExportSchema.ProjectRow, ExportSchema.FillMediaCells, ExportFile.WriteRecord, ExportFile.WriteUserChunk, Capture.CaptureChunks, Capture.CaptureSingleBatch, Capture.CaptureUserDetails: the export chain uses the guarded media write (`MediaTypeCells`), not the unguarded one the script has. `ExportSchema.AsWrittenAgreesUnlessRaising` shows that the two agree whenever the script's `writerow` does not raise; the raising case is the first row under "## Findings".
- FederationUpdate.FederationMain: names the log with the corrected `ErrorLogPath`. When `--errorlog` has no suffix and some user faulted, the script instead raises ValueError and writes no log (`FederationUpdate.ErrorLogPathAsWritten`, `FederationUpdate.AsWrittenNoSuffixRaises`, the second row under "## Findings"); the method does not model that crash. With a suffix, its path is the script's own.
- ExportSchema.WriteRow, ExportFile.Records: cells stay `Value`s (text, boolean, None); the rendering `csv` applies when it writes them (None as "", booleans as "True"/"False") is not modelled.
- The CSV dialect's line terminator is left out: the error log is a list of lines without their "\r\n".
- Logging of the retrieved count, the error print-out per user and the progress postfix are output only.

## Findings

| source | as written | input that shows it | evidently intended | confidence | as-written member | corrected member |
|---|---|---|---|---|---|---|
| examples/user_management/capture_user_detail_to_csv.py:78-83 | the media loop writes `row["media_enabled_<type>"]` for every media type, even when that column does not exist; `writerow` then raises ValueError, because `DictWriter` rejects extra keys and the call is outside the `try` | media types on, chunked or single batch, with a first user having only VOICE and a later user having a CHAT media type | like the permission cells (line 107), write only columns that exist, so later users are projected onto the first user's columns | not executed | ExportSchema.AsWrittenLaterUserRaises | ExportSchema.ProjectedRowWritable |
| examples/user_management/bulk_user_federationId_update_from_csv.py:130-131 | with no suffix, `with_suffix("_<timestamp>.csv")` is called; `pathlib` requires a suffix to start with '.', so it raises ValueError before any error log is written | `--errorlog private/errors` and at least one faulted user | name the log `<name>_<timestamp>.csv` in the same directory | not executed | FederationUpdate.AsWrittenNoSuffixRaises | FederationUpdate.ErrorLogPathShape |
