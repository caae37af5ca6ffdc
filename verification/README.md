# LocalDrive: a verified model

LocalDrive stores files for its users: a Go server with a MySQL table of files and a
directory of stored files, and a web client that uploads in pieces and keeps a cache of
folder listings. This project models the parts of it that carry data and proves what
they promise. `dafny verify dfyconfig.toml` checks everything.

**The query builder** (`SqlBuilder`, `SqlGrammar`, `SqlLexing`, `SqlMeaning`, `SqlParsing`,
`SqlTheorems`, `SqlInsertText`, `SqlPlaceholders`, `SqlDriver`). The statements are mutable
objects; the WHERE clause is a singly linked list with a head and a tail pointer. A small
SQL front end, written independently of the builder, reads the text back: a lexer, a parser
in which AND binds tighter than OR, arguments bound to `?` from left to right, and
three-valued logic. The main results say that what was chained is what the statement means.

**The file table** (`FileModel`, `FileTable`, `FileListing`, `FileForest`, `FileUniqueness`,
`FileNaming`, `FileOutcomes`, `FileSql`, `FileStatements`, `FileGateway`). Rows by id, with the conditional unique index; each gateway operation is one
statement that happens as a whole or not at all. Invariants hold over every run of
operations. `FileSql` carries the same records through the query builder, and `FileStatements`
proves that running the built statements is what the table steps say.

**Uploads** (`Upload`, `UploadOutcomes`, `UploadRuns`, `UploadClient`, `UploadEndToEnd`, `UploadLocked`,
`FileHandler`, `UploadInterleaving`, `UploadRaces`, `UploadRaceRun`, `UploadOverlapRun`, `MutexMap`, `FileNames`). `Upload` gives each handler as
one step on a server value, with disk and database faults as arguments. `FileHandler` is the
handlers at work on their session map, whose entries are copied when read but share their
index maps; each request is proved to do what its step does. `UploadInterleaving` splits a
chunk request at its lock, and a completion or failure after its checks, and `UploadRaces`
decides exactly what that can disturb. The theorems speak of a record of the last accepted content of
every chunk, which each accepted request extends under the file of its session.

**The client cache** (`FileStore`, `FileStoreAgreement`, `FileStoreBin`), **sessions** (`Sessions`),
**password strings** (`Base64`, `Phc`), **directory walks** (`Walk`, `WalkColumns`) and **the disk writer**
(`DiskWriter`, `Division`) complete the picture. `Text` holds shared vocabulary.

SHA-256 and Argon2id are function parameters; for Argon2id (RFC 9106) only the output length
is used. Ids, temporary paths and times are parameters, ids and paths being fresh.

Where the code and its documentation differ, the model follows the code:

- `Is` is documented with `Column IS NOT NULL`, yet its argument is recorded without a `?`;
  every statement that uses it is rejected (`SqlTheorems.IsIsRejected`, `SelectMeaning`).
- A restore reports an error when the number of changed rows differs from the number of ids,
  but the rows are restored all the same (`FileGateway.ErrorRestoresIff`, `RepeatedIdRestores`).
- A restore to the root keeps the old hash, so the index no longer speaks about names
  (`FileUniqueness.RestoreHashIff`, `RestoreBreaksUniqueness`); `FileNaming` says exactly when
  names stay unique all the same. Since the index hashes the parts run together, different
  names can clash (`FileUniqueness.DifferentNamesRefused`).
- A chunked disk write that fails is said to write no file; what was written stays.
- The PHC parser does not look at the algorithm and version fields.
- An empty file announces one chunk and sends none, so it can never be completed.
- A full session is documented to take no more chunks, yet a request that was read before
  writes into it (`UploadRaces.BodyIsChunkIff`). An upload that was completed can come back as
  a session when a chunk request was waiting, and a second completion can then destroy the
  stored file (`UploadRaces.CompletedStaysIff`, `SecondCompletionDestroysIff`).
- The mutexes of `completeMutexes` (src/api/file_handler.go:53-55) are documented to keep merges
  of one upload apart, but nothing ever locks them: of two completions that have both read the
  session, the second destroys what the first stored, and a failure that has read it fails the
  completed row (`UploadRaces.StaleCompletionDestroysIff`, `StaleFailure`, `UploadOverlapRun`).
- The parent of an upload or of a new folder is not checked, so the row can be in no listing
  (`FileListing.AddedListedIff`), and its path can show rows of another account
  (`FileListing.OwnCrumbsIff`, `ForeignCrumb`).
- A name with nothing but blanks before its last dot, such as `.profile`, cannot be uploaded
  (`FileNames.NameRefusedIff`).

## Model

| member | source | states |
|---|---|---|
| SqlBuilder.BuildPlaceholder | src/sqlquery/utils.go:19-38 | prints `repeat` groups of `placeholderCount` marks, at least one group even for no rows |
| SqlBuilder.BuildSetPlaceholder | src/sqlquery/utils.go:42-52 | prints one `column = ?` per column, in order |
| SqlBuilder.ConditionNode.BuildQuery | src/sqlquery/condition_node.go:58-80 | prints one condition by its operator; IS prints its argument, EXISTS its subquery |
| SqlBuilder.ConditionClause.Attach | src/sqlquery/condition_clause.go:92-103 | the new node becomes the last cell of an acyclic list whose cells are the appended conditions in call order; the old cells stay |
| SqlBuilder.ConditionClause.AddNewNode | src/sqlquery/condition_clause.go:92-103 | one more condition in the list, and its arguments, after all earlier ones, in the owning builder |
| SqlBuilder.ConditionClause.Equal | src/sqlquery/condition_clause.go:58-62 | appends an equality with its argument |
| SqlBuilder.ConditionClause.Is | src/sqlquery/condition_clause.go:64-69 | appends an IS condition, whose text is also recorded as an argument |
| SqlBuilder.ConditionClause.In | src/sqlquery/condition_clause.go:72-76 | appends a membership test with all its arguments |
| SqlBuilder.ConditionClause.Exists | src/sqlquery/condition_clause.go:82-86 | appends a subquery test with the arguments of the subquery |
| SqlBuilder.ConditionClause.And | src/sqlquery/condition_clause.go:108-116 | sets the link of the last condition to AND, the last call winning; nothing happens on an empty clause |
| SqlBuilder.ConditionClause.Or | src/sqlquery/condition_clause.go:121-129 | sets the link of the last condition to OR likewise |
| SqlBuilder.ConditionClause.BuildConditionString | src/sqlquery/condition_clause.go:154-171 | the walk over the list ends and prints every condition once, each but the last followed by its link |
| SqlBuilder.ConditionClause.Build | src/sqlquery/condition_clause.go:48-55 | the statement with its clause; list, conditions and arguments are as before |
| SqlBuilder.TrailingLinkIsNotPrinted | src/sqlquery/condition_clause.go:154-171 | a link with no condition after it leaves the text of the clause unchanged |
| SqlBuilder.QueryBuilder.Build | src/sqlquery/sqlquery.go:68-80 | the main text and, when a filter is set, the text of the filter |
| SqlBuilder.SqlSelect.Build | src/sqlquery/sql_select.go:46-65 | SELECT over the given columns, or over all when none were named, with the recorded arguments |
| SqlBuilder.SqlUpdate.Build | src/sqlquery/sql_update.go:48-63 | UPDATE with its SET list and clause, with the recorded arguments |
| SqlBuilder.SqlInsert.Build | src/sqlquery/sql_insert.go:57-93 | rejects no columns and arguments that fill no whole rows; otherwise one group of marks per row |
| SqlTheorems.SelectMeaning | src/sqlquery/condition_clause.go:48-171 | for every chain of conditions, EXISTS subqueries nested to any depth: the text, parsed back with AND above OR and with the arguments bound left to right, is accepted exactly when the chain is well formed and free of IS, and then selects exactly the intended rows |
| SqlTheorems.IntendedIff | src/sqlquery/sql_select.go:46-76 | what is intended: exactly the asked columns of the rows of the table for which the clause holds |
| SqlTheorems.ConditionMeans | src/sqlquery/condition_clause.go:58-86 | what each condition says of a row, in plain terms: NULL never equals anything |
| SqlTheorems.UpdateMeaning | src/sqlquery/sql_update.go:26-63 | an UPDATE is accepted exactly when it sets a column and its clause is runnable, and then gives exactly the intended rows exactly the given values |
| SqlTheorems.IsIsRejected | src/sqlquery/condition_clause.go:64-69 | the documented use of IS is rejected: its argument has no mark |
| SqlInsertText.InsertMeaning | src/sqlquery/sql_insert.go:57-93 | in a batch INSERT the k-th mark of row r is bound to value k of row r, for any number of rows and columns |
| SqlInsertText.EmptyInsertIsRejected | src/sqlquery/utils.go:19-27 | an INSERT without arguments still prints one group of marks and is rejected |
| SqlPlaceholders.PlaceholderMarks | src/sqlquery/utils.go:19-38 | the number of marks is the product of the two counts |
| SqlPlaceholders.PlaceholderLaw | src/sqlquery/condition_node.go:58-80 | character by character: the marks of any clause are its arguments less the silent ones, which are one for each IS and, for a subquery, those its own text lacks |
| SqlPlaceholders.UpdatePlaceholderLaw | src/sqlquery/sql_update.go:26-63 | an UPDATE prints one mark per SET column, before the marks of its clause |
| SqlPlaceholders.QueryPlaceholderLaw | src/sqlquery/sql_select.go:46-76 | the marks of a whole SELECT are its arguments less its IS conditions, subqueries of any depth included |
| SqlPlaceholders.ChangePlaceholderLaw | src/sqlquery/sql_update.go:26-63 | the same for a whole UPDATE |
| SqlDriver.SelectOf | src/sqlquery/sql_select.go:33-76 | the builder objects, driven call by call for any query with nested subqueries, yield the text and the arguments in the order of the marks |
| SqlDriver.RunSelectOf | src/sqlquery/sql_select.go:33-76 | building with the objects and running gives exactly the intended rows or a rejection |
| SqlDriver.UpdateOf | src/sqlquery/sql_update.go:26-63 | SET arguments precede WHERE arguments in what the objects build |
| SqlDriver.RunUpdateOf | src/sqlquery/sql_update.go:26-63 | building an UPDATE with the objects and running changes exactly the intended rows |
| SqlDriver.BuildAgain | src/sqlquery/condition_clause.go:48-55 | building twice gives the same text and arguments and changes no condition |
| Base64.RoundTrip | src/hasher/hasher.go:151-225 | unpadded base64: decoding what was encoded gives the bytes back (section 4 of RFC 4648) |
| Base64.CanonicalIff | src/hasher/hasher.go:208-225 | a decodable text is reproduced exactly when its spare bits are zero and it has no line breaks (section 3.5 of RFC 4648) |
| Base64.EncodeInjective | src/hasher/hasher.go:134-137 | two byte sequences have equal texts exactly when they are equal |
| Base64.DecodesIff | src/hasher/hasher.go:208-225 | a text decodes exactly when, line breaks aside, it has symbols of table 1 of RFC 4648 only and not one more than a multiple of four |
| Base64.KnownTexts | src/hasher/hasher.go:151-153 | the examples of section 10 of RFC 4648, unpadded |
| Phc.PhcRoundTrip | src/hasher/hasher.go:70-205 | parsing the printed string and decoding it gives back salt, hash and parameters |
| Phc.ParsesNumbers | src/hasher/hasher.go:236-280 | any three runs of digits parse, unless one is beyond a signed 64-bit integer; narrower fields keep the low bits |
| Phc.OnlyNumbersParse | src/hasher/hasher.go:236-280 | and no other parameter text does |
| Phc.PrefixIgnored | src/hasher/hasher.go:70-115 | algorithm and version are not looked at; what the other three fields give is the record |
| Phc.ReprintIff | src/hasher/hasher.go:70-178 | a parsed string is printed back to itself exactly when it is canonical |
| Phc.CompareIff | src/hasher/hasher.go:117-142 | for every record that decodes: a password matches exactly when the stored hash is canonical base64 and the key derived from the password under the stored salt and parameters is the bytes that it decodes to |
| Phc.LoginIsKeyEquality | src/hasher/hasher.go:123-142 | a password matches the string made for another exactly when both derive one key from its salt and parameters |
| Phc.LoginIff | src/hasher/hasher.go:123-142 | so the stored password logs in, and no other with another key does |
| Phc.NonCanonicalNeverMatches | src/hasher/hasher.go:123-142 | a stored hash that is not canonical base64 matches no password |
| Walk.Walker.Visit | src/file/file.go:280-342 | the callback of the walk: one record with the id of its directory, and directories entered in the id table |
| Walk.Walker.WalkChildren | src/file/file.go:280-342 | walking a directory appends its preorder flattening and keeps the id table of everything around it |
| Walk.Read | src/file/file.go:168-175 | the list of a whole tree, from which the tree can be rebuilt; the root is named after the account |
| Walk.WalkIsInvertible | src/file/file.go:280-342 | rebuilding from parent ids gives the tree of names, kinds and sizes back |
| Walk.ParentsComeFirst | src/file/file.go:280-342 | every record lies under the root or in a directory listed before it |
| WalkColumns.FlatColumns | src/file/file.go:296-332 | every record is pending, of the account, under its id, with the extension and the hash of its own name |
| FileTable.RunKeepsIndex | sql/scripts/00.testdb_setup.sql:39-47 | after every run the primary key and the conditional unique index hold |
| FileTable.RunConserves | src/db_gateway/file_gateway.go:215-422 | no run removes a row or changes its owner or type |
| FileTable.RestoreMakesLive | src/db_gateway/file_gateway.go:376-422 | after a restore each named row is live, in the root or in a live row |
| FileTable.DeleteThenRestore | src/db_gateway/file_gateway.go:331-422 | deleting and restoring a live row gives the same table exactly when it was in the root or its parent is live |
| FileOutcomes.RenameOutcome | src/db_gateway/file_gateway.go:265-304 | a rename of any row of the account, file or folder: refused exactly for a counted file whose new hash another has; otherwise the row has the new name, the time and the hash of its parts, and nothing else changes |
| FileOutcomes.RenameTellsApart | src/db_gateway/file_gateway.go:265-304 | two renames of a row end alike only for one name and one time |
| FileOutcomes.DeleteOutcome | src/db_gateway/file_gateway.go:331-366 | a delete sets the time in exactly the named rows of the account; the rows it changes are counted |
| FileOutcomes.RestoreOutcome | src/db_gateway/file_gateway.go:376-401 | a restore makes exactly the named rows of the account live, under their parent when it is live and in the root otherwise |
| FileOutcomes.StatusOutcome | src/db_gateway/file_gateway.go:544-560 | a status change sets status and time of one row; refused exactly when the row would count and another has its hash |
| FileOutcomes.InsertOutcome | src/db_gateway/file_gateway.go:215-256 | a batch is accepted exactly when no file shares its id, or its hash as a counted file, with a row or with another of the batch; then its files are the new rows |
| FileListing.SelectRows | src/db_gateway/file_gateway.go:448-480 | the loop collects the live rows of the owner in the folder, each once |
| FileListing.ListedIff | src/db_gateway/file_gateway.go:432-480 | a row is in some listing that the gateway answers exactly when it is live and lies in the root or in a row of its owner, and then in one only |
| FileListing.TrashOrOneListing | src/db_gateway/file_gateway.go:90-121 | over every run whose adds name the root or a row of the owner: each row is in the bin or in exactly one answered listing, never in both |
| FileListing.GeneratedListedIff | src/api/file_handler.go:190-198 | the parent of an upload is not checked: its row is in a listing exactly when the client named the root or a row of the account |
| FileListing.AddedListedIff | src/db_gateway/file_gateway.go:215-256 | the gateway checks no parent: a new row is in a listing exactly when its parent is the root or a row of its owner |
| FileListing.FolderListedIff | src/api/file_handler.go:581-593 | a new folder is never refused; all its columns, with the default name; and it is in a listing exactly when the client named the root or a row of the account |
| FileListing.OwnCrumbsIff | src/db_gateway/file_gateway.go:495-511 | the path to a folder of the account shows rows of the account only, exactly when each row below the first lies in a row of its own owner |
| FileListing.RunCrumbsAreOwn | src/db_gateway/file_gateway.go:495-539 | over every run whose adds name the root or a row of the owner, paths show no row of another account |
| FileListing.ForeignCrumb | src/db_gateway/file_gateway.go:504-506 | a folder added to a folder of another account shows that folder in its path |
| FileForest.RunKeepsAcyclic | src/db_gateway/file_gateway.go:215-422 | over every run the parent relation has no cycle |
| FileForest.RunKeepsRooted | src/db_gateway/file_gateway.go:215-422 | rows stay in the root or in an existing row when each add names one |
| FileForest.FromEmpty | src/db_gateway/file_gateway.go:215-422 | both hold for every run from the empty table |
| FileForest.NoRepeats | src/db_gateway/file_gateway.go:495-539 | no row occurs twice on the way up from a folder |
| FileForest.NoCycle | src/db_gateway/file_gateway.go:495-539 | no way up comes back to where it began |
| FileForest.ReverseInPlace | src/db_gateway/file_gateway.go:534-537 | the rows are turned round in place |
| FileForest.GetBreadcrumbs | src/db_gateway/file_gateway.go:495-539 | the recursive query ends and lists, without repeats, the path down to the folder, from the root when every row is rooted |
| FileForest.RenameShowsInPath | src/db_gateway/file_gateway.go:495-539 | after an accepted rename every path through the row shows the new name there and is otherwise the path before |
| FileUniqueness.NewFileHashOk | src/file/file.go:129-160 | a new record carries the hash of its own owner, name, extension and parent |
| FileUniqueness.StepKeepsHash | src/db_gateway/file_gateway.go:265-422 | add, rename, delete, status changes and restores that keep the parent leave every hash right |
| FileUniqueness.RestoreHashIff | src/db_gateway/file_gateway.go:376-393 | the hash of a restored row stays right exactly when the row keeps its parent |
| FileUniqueness.RunKeepsUnique | sql/scripts/00.testdb_setup.sql:39-47 | without a restore that moves a row every hash stays right, and no two pending or completed files of an owner share name, extension and parent |
| FileUniqueness.RestoreBreaksUniqueness | src/db_gateway/file_gateway.go:376-393 | a run with such a restore after which two files of one name lie in the root |
| FileNaming.RestoreUniqueIff | src/db_gateway/file_gateway.go:376-393 | a restore keeps names unique exactly when no counted row that it moves meets a counted namesake of its owner that is in the root afterwards |
| FileNaming.InsertUniqueIff | src/db_gateway/file_gateway.go:215-256 | an accepted batch keeps names unique exactly when none of its counted files has the name of a row whose hash went stale, which the index no longer sees |
| FileNaming.RenameUniqueIff | src/db_gateway/file_gateway.go:265-304 | a rename keeps names unique exactly when it is refused, is of an uncounted row, or meets no stale namesake |
| FileNaming.StatusUniqueIff | src/db_gateway/file_gateway.go:544-560 | a status change keeps names unique exactly when the row is not counted afterwards or has no namesake with one of the two hashes stale |
| FileNaming.StepUniqueIff | src/db_gateway/file_gateway.go:215-422 | the condition for every statement, checked on the table before it |
| FileNaming.RunUniqueIff | sql/scripts/00.testdb_setup.sql:39-47 | over every run, moving restores included, names are unique all along exactly when every statement met its condition |
| FileUniqueness.ClashIff | src/file/file.go:129-160 | the index compares the four parts run together |
| FileUniqueness.DifferentNamesRefused | src/file/file.go:129-160 | so two different names can be refused beside each other |
| FileSql.FlattenFile | src/file/file.go:179-202 | all twelve fields of all files, file after file |
| FileSql.NamedColumns | src/file/file.go:17-32 | which column of the schema holds which field of a file, and how types and states are written |
| FileSql.BuildAddFile | src/db_gateway/file_gateway.go:215-256 | the batch INSERT of any non-empty list has twelve arguments per file |
| FileSql.BatchInsertIsFaithful | src/db_gateway/file_gateway.go:215-256 | running that INSERT and scanning the rows in schema order returns the same files |
| FileSql.ExecuteDelete | src/db_gateway/file_gateway.go:331-352 | the statement built for a delete marks exactly the rows of the owner with the given ids |
| FileSql.ExecuteStatus | src/db_gateway/file_gateway.go:544-560 | the statement built for a status change sets the status of that row only, and the two-column one of a completion its time as well |
| FileStatements.RunDelete | src/db_gateway/file_gateway.go:331-352 | that statement, run on the rows of any table in any order, gives the rows of the table after the delete |
| FileStatements.RunStatus | src/db_gateway/file_gateway.go:180-200 | the status statements give the rows of the table after the status change, or of the row that the index refuses |
| FileStatements.RunAdd | src/db_gateway/file_gateway.go:215-256 | the batch INSERT, run and scanned, gives the rows of the table after the adds |
| FileStatements.HeldTable | src/db_gateway/file_gateway.go:215-256 | rows in whatever order determine the table |
| FileGateway.Gateway.AddFile | src/db_gateway/file_gateway.go:215-256 | all files or none are added; empty lists and duplicates are reported |
| FileGateway.Gateway.RenameFile | src/db_gateway/file_gateway.go:265-304 | answers with the row, renamed and stamped and otherwise as it was; missing rows and duplicates are reported |
| FileGateway.Gateway.DeleteFiles | src/db_gateway/file_gateway.go:331-366 | marks the rows of the owner and returns how many changed |
| FileGateway.Gateway.RestoreDeletedFiles | src/db_gateway/file_gateway.go:376-422 | restores and moves rows; an error is reported when the number differs although the rows were restored |
| FileGateway.Gateway.UpdateUploadStatus | src/db_gateway/file_gateway.go:544-560 | sets the status of one row unless the index refuses it |
| FileGateway.Gateway.GetFilesByParent | src/db_gateway/file_gateway.go:432-480 | there is an answer exactly for the root and for rows of the account: each live row of the folder once, and no other |
| FileGateway.Gateway.GetBreadcrumbs | src/db_gateway/file_gateway.go:495-539 | the path to a folder of the account after any operations |
| FileGateway.RestoreSucceedsIff | src/db_gateway/file_gateway.go:404-413 | a restore reports success exactly when the ids are distinct and every one names a row of the owner that was deleted or loses its parent |
| FileGateway.RestoreAnswers | src/db_gateway/file_gateway.go:416-421 | then it answers with exactly the named rows, as they are in the table: live, in the root or in a live row, and otherwise as they were deleted |
| FileGateway.RestoreUnchangedIff | src/db_gateway/file_gateway.go:376-401 | a restore leaves the table as it was exactly when no id names such a row |
| FileGateway.ErrorRestoresIff | src/db_gateway/file_gateway.go:399-413 | an error is reported and rows were restored all the same exactly when some id names such a row and an id is repeated or another does not |
| FileGateway.RepeatedIdRestores | src/db_gateway/file_gateway.go:399-413 | such a call: naming one deleted file twice brings it back and reports an error |
| Upload.CopyFrom | src/api/file_handler.go:444-478 | the merge goes through exactly when every chunk can be read; otherwise the first that cannot decides the answer |
| UploadOutcomes.GenerateOutcome | src/api/file_handler.go:179-224 | the row and the session of an accepted upload id, column by column; otherwise nothing changes |
| UploadOutcomes.ChunkOutcome | src/api/file_handler.go:262-364 | the answer of every chunk request and all it leaves, for every fault |
| UploadOutcomes.CompleteOutcome | src/api/file_handler.go:408-478 | the answer of every completion that is not accepted, by its first obstacle, and all it leaves |
| UploadOutcomes.CompletedOutcome | src/api/file_handler.go:444-505 | an accepted completion drops the session and exactly its chunk files, writes one stored file and completes the row unless the database or the index refuses |
| UploadOutcomes.FailOutcome | src/api/file_handler.go:530-557 | the answer of every failure request and all it leaves |
| UploadLocked.ReceiveByParts | src/api/file_handler.go:306-364 | what the locked part of a chunk request leaves of sessions, files and rows |
| FileHandler.FileHandler.UploadGenerateId | src/api/file_handler.go:161-236 | a pending row and a session with an index map of its own, or a refusal that changes nothing |
| FileHandler.FileHandler.ReceiveChunk | src/api/file_handler.go:306-364 | the locked body on any copy of a session: the copy is written back only when the directory had to be made |
| FileHandler.FileHandler.UploadFileChunk | src/api/file_handler.go:254-376 | the whole request on the session map does to the server what the atomic chunk step does |
| FileHandler.FileHandler.MergeChunks | src/api/file_handler.go:441-478 | the merge loop leaves the chunks in index order in the stored file, or no file |
| FileHandler.FileHandler.UploadFileComplete | src/api/file_handler.go:396-505 | the whole request does to the server what the atomic completion step does |
| FileHandler.FileHandler.RemoveFiles | src/api/file_handler.go:947-956 | exactly the given files are removed |
| FileHandler.FileHandler.FinalizeUpload | src/api/file_handler.go:420-505 | what follows the checks of a completion, on any copy of a session, current or not |
| FileHandler.FileHandler.GiveUpUpload | src/api/file_handler.go:542-557 | what follows the look-up of a failure, on any copy of a session |
| FileHandler.FileHandler.UploadFileStatusFailed | src/api/file_handler.go:512-558 | the row is failed and the session dropped, unless the database refuses |
| UploadRuns.RunKeeps | src/api/file_handler.go:161-558 | over every run with fresh ids: each session has a waiting row of its own and chunk files with the accepted contents, and completed rows have their files |
| UploadRuns.MergeIsLedger | src/api/file_handler.go:444-478 | a merge that goes through is the accepted contents of all chunks in index order |
| UploadRuns.CompletedMeansStored | src/api/file_handler.go:396-558 | in every state reachable from an empty server a completed file row has a stored file equal to its chunks in index order, with indexes 0, 1, … and no gap |
| UploadRuns.CompletedStays | src/api/file_handler.go:396-558 | with atomic requests no later step changes the status, the file or the recorded contents of a completed row (for interleaved ones see UploadRaces.CompletedStaysIff) |
| UploadRuns.CompleteNeedsEveryIndex | src/api/file_handler.go:414-478 | a completion is accepted only with exactly the indexes 0, …, totalChunks - 1; otherwise nothing is stored and session and chunks stay |
| UploadRuns.CompleteIff | src/api/file_handler.go:276-298 | in a reachable state a completion with working disks is accepted exactly when the count is right and no negative index was recorded |
| UploadRuns.RetryStores | src/api/file_handler.go:414-486 | after a failed completion a retry with working disks answers and stores what it would have without the failure |
| UploadRuns.RowCompletesIff | src/api/file_handler.go:480-488 | an accepted completion reaches the row exactly when no other pending or completed file claims its hash; a pending row is sure of it |
| UploadClient.UploadChunks | frontend/src/components/auth-components/storage-components/file-ops-components/file-uploader.ts:121-149 | the loop sends every piece once, in order, with its index |
| UploadClient.PieceCount | frontend/src/components/auth-components/storage-components/file-ops-components/file-uploader.ts:200-209 | the number of pieces is the size divided by the piece size, rounded up |
| UploadClient.PieceSizes | frontend/src/components/auth-components/storage-components/file-ops-components/file-uploader.ts:130-146 | every piece but the last has the full size |
| UploadClient.PiecesAreTheFile | frontend/src/components/auth-components/storage-components/file-ops-components/file-uploader.ts:130-146 | the pieces one after another are the file |
| UploadClient.AnnouncedIsSentIff | frontend/src/components/auth-components/storage-components/file-ops-components/file-uploader.ts:200-209 | as many pieces are sent as announced exactly when the file is not empty |
| UploadEndToEnd.HonestRunCollects | src/api/file_handler.go:254-376 | along any run that sends only pieces the session keeps what it has and gains every piece sent while the disk works |
| UploadEndToEnd.CleanRunStaysPending | src/api/file_handler.go:923-932 | a row is failed by no run in which its own chunks are written |
| UploadEndToEnd.EndToEnd | src/api/file_handler.go:161-505 | pieces in any order, repeated at will, among any other requests: the completion is accepted exactly when the file is not empty, the stored bytes are the file, path and size of the row are those a download uses, and the row is completed unless a chunk write failed |
| FileNames.DownloadNameIff | src/api/file_handler.go:137-141 | a downloaded file has the name it was uploaded with exactly when that name has a dot |
| FileNames.NameRefusedIff | frontend/src/components/auth-components/storage-components/file-ops-components/file-uploader.ts:173-193 | an upload is refused for its data exactly when it announces no chunk or every character before the last dot of its name, or of a name without one, has the White_Space property |
| FileNames.NameAcceptedIff | src/api/file_handler.go:179-217 | every other is accepted, or a duplicate: exactly when its id is taken or a counted file has its hash |
| UploadInterleaving.RunSound | src/api/file_handler.go:161-558 | over every interleaving, sessions and copies keep an index map and a row of their account |
| UploadInterleaving.OpenedIsPrivate | src/api/file_handler.go:219-224 | an accepted request for an upload id opens a session that no other session and no request between its steps touches |
| UploadInterleaving.EndAtOnce | src/api/file_handler.go:408-505 | a completion or failure with nothing between its look-up and the rest is the one-step request |
| UploadInterleaving.ChunkAtOnce | src/api/file_handler.go:262-364 | a chunk request with nothing between its look-up and the locked part is the one-step request |
| UploadInterleaving.AtomicIsApply | src/api/file_handler.go:161-557 | a one-step request on the shared state does to the server what its step does |
| UploadInterleaving.ReadWaitsIff | src/api/file_handler.go:262-298 | a chunk request gets past its checks exactly when the upload is known, the index below its total and the session not full |
| UploadInterleaving.InterleavedKeeps | src/api/file_handler.go:262-364 | with any number of chunk requests, completions and failures between their two steps, and none of this upload ending, its total, account, file and index map stay, its directory is never forgotten, and no recorded chunk is lost |
| UploadInterleaving.FromOpening | src/api/file_handler.go:219-364 | that holds from the opening of every upload on, after any run of a server that started idle |
| UploadInterleaving.BodyIsReceive | src/api/file_handler.go:300-364 | a locked body on a stale copy changes the server as the locked part on a fresh copy would at that moment |
| UploadInterleaving.LateBodyRevivesIff | src/api/file_handler.go:314-333 | a locked body brings a vanished session back exactly when it makes the directory |
| UploadInterleaving.RevivesAfterEndIff | src/api/file_handler.go:495-505 | a request read before the end of its upload and locked after it revives the session exactly under that condition |
| UploadRaces.BodyIsChunkIff | src/api/file_handler.go:276-303 | a locked body changes the server as the atomic request would exactly when the session has not filled up since it was read, or the body has no effect, and answers alike exactly when it has not filled up: the check for a full session is made before the lock only |
| UploadRaces.FullSessionOverwritten | src/api/file_handler.go:289-364 | a body on a full session replaces the chunk of its index; the count stays right exactly when there was one |
| UploadRaces.CompletedStaysIff | src/api/file_handler.go:254-558 | a completed upload keeps its status and its bytes over every later interleaving exactly when no session is about its file, and no chunk request, completion or failure that has read its copy and is yet to act |
| UploadRaces.OverAfterActIff | src/api/file_handler.go:420-557 | after an accepted completion or failure that is: exactly when no other request for the upload was between its two steps |
| UploadRaces.OverAfterEndIff | src/api/file_handler.go:408-557 | after one with nothing between its steps: when none was |
| UploadRaces.StaleCompletionDestroysIff | src/api/file_handler.go:408-505 | of two completions that have read the same full session, the second removes the file that the first stored, and fails its row, exactly when there was a chunk |
| UploadRaces.StaleFailure | src/api/file_handler.go:530-557 | a failure that has read the session fails the row that a completion completed meanwhile; the file stays |
| UploadRaces.SecondCompletion | src/api/file_handler.go:414-478 | how a second completion of a revived session ends, by the late index and the number of chunks |
| UploadRaces.SecondCompletionDestroysIff | src/api/file_handler.go:396-505 | a late chunk request whose copy knows no directory lets a second completion remove the stored file, and fail the row, exactly when its index is not negative and there is more than one chunk |
| UploadRaceRun.RaceIsReached | src/api/file_handler.go:262-303 | a run from an idle server that leads to a full session with such a request waiting |
| UploadRaceRun.RacedCompletes | src/api/file_handler.go:396-505 | there a first completion stores both chunks and completes the row |
| UploadRaceRun.RacingOverwrites | src/api/file_handler.go:289-364 | there the waiting request overwrites a chunk, where an atomic request is refused |
| UploadRaceRun.RacingRevives | src/api/file_handler.go:314-333 | there, after the first completion, the waiting request brings the session back |
| UploadRaceRun.RacingDestroys | src/api/file_handler.go:414-478 | and a second completion removes the stored file and fails the row |
| UploadOverlapRun.OverlapIsReached | src/api/file_handler.go:408-418 | a run from an idle server in which a completion and another end have read the same full session; the completion is then accepted, stores the chunk and completes the row |
| UploadOverlapRun.OverlapDestroys | src/api/file_handler.go:420-478 | there, with no session and no chunk request left, the second completion removes the file and fails the row |
| UploadOverlapRun.OverlapFails | src/api/file_handler.go:542-557 | there a failure fails the completed row and leaves its file |
| MutexMap.SameLockIff | src/api/mutex_map.go:19-34 | two requests for an upload are handed the same mutex exactly when it was not removed in between |
| MutexMap.MutexMap.GetMutex | src/api/mutex_map.go:19-27 | the mutex of the key, made when there is none |
| MutexMap.MutexMap.RemoveMutex | src/api/mutex_map.go:32-34 | forgets the mutex of the key only |
| FileStore.FileStore.SetFolder | frontend/src/context/FileStore.ts:93-113 | fills a folder once and never again |
| FileStore.FileStore.AddResponse | frontend/src/context/FileStore.ts:139-155 | adds the entry to the folder and rearranges it |
| FileStore.AddedIsArranged | frontend/src/context/FileStore.ts:139-155 | a sort that arranges leaves the folder arranged, with the one entry more |
| FileStore.FileStore.Replace | frontend/src/context/FileStore.ts:172-195 | the first entry with the id is replaced, or the entry appended |
| FileStore.FileStore.Remove | frontend/src/context/FileStore.ts:196-210 | drops every entry with the id and returns the first of them |
| FileStoreAgreement.RunKeeps | frontend/src/context/FileStore.ts:93-210 | over every sequence of visits, and of adds, uploads, renames and deletes in loaded folders and restores into them, each loaded folder holds one entry for each of its live rows but those still uploading or given up |
| FileStoreAgreement.CacheAgrees | frontend/src/context/FileStore.ts:93-210 | so each loaded folder shows exactly the completed files of the listing on the server |
| FileStoreAgreement.RestoreUnloadedIff | frontend/src/components/auth-components/storage-components/file-row-components/RestoreButton.tsx:26-48 | a restore into a folder never loaded leaves a listing of one entry that a visit does not refresh; it agrees exactly when no other completed file is there |
| FileStoreAgreement.AddUnloadedIff | frontend/src/context/FileStore.ts:156-171 | a folder added in a folder never loaded, as from the page of the bin, leaves a listing of one entry; it agrees exactly when no completed row is there |
| FileStoreAgreement.UploadUnloadedIff | frontend/src/components/auth-components/storage-components/StorageHome.tsx:104-125 | an upload finished there likewise |
| FileStoreAgreement.RenameInBinIff | frontend/src/components/auth-components/modal-components/RenameFile.tsx:26-45 | a rename on the page of the bin puts the deleted row into the loaded root, which still agrees exactly when the row is not completed |
| FileStoreBin.ServerDoes | frontend/src/context/FileStore.ts:93-170 | what each action of the client makes the server execute |
| FileStoreBin.VisitTrashShows | frontend/src/context/FileStore.ts:114-131 | a visit of the bin caches one entry for each deleted row of the account, whatever was cached before |
| FileStoreBin.BinKeptIff | frontend/src/context/FileStore.ts:114-210 | from then on every action keeps the cached bin right but a delete, which never does |
| FileStoreBin.BinShowsAlong | frontend/src/context/FileStore.ts:114-210 | so it stays right along every run without a delete |
| Sessions.SessionGateway.UpsertSession | src/db_gateway/session_gateway.go:107-145 | the account has the new session and no other |
| Sessions.SessionGateway.ValidateSessionAndGetUser | src/db_gateway/session_gateway.go:154-210 | valid exactly for a stored id that is not blank and has not expired, with its account |
| Sessions.SessionGateway.DeleteSessionByID | src/db_gateway/session_gateway.go:218-242 | drops that session only |
| Sessions.ValidatesIff | src/db_gateway/session_gateway.go:107-242 | after any history an id validates exactly when its login is the last of its account, was not logged out, and is at most fourteen days old; it stands for the account of that login |
| Sessions.OnePerAccount | sql/scripts/00.testdb_setup.sql:49-59 | no account ever has two sessions |
| Sessions.EndedForGood | src/db_gateway/session_gateway.go:107-242 | an id replaced or logged out never validates again |
| DiskWriter.OverwriteExtends | src/diskreadwriter/diskreadwriter.go:72-92 | writing the next chunk at its offset extends the written beginning and keeps the older content behind it |
| DiskWriter.OverIs | src/diskreadwriter/diskreadwriter.go:72-92 | byte for byte: the data, and behind it what was there before |
| DiskWriter.DiskReadWriter.WriteToDisk | src/diskreadwriter/diskreadwriter.go:54-104 | ends after the rounded-up number of writes with the data followed by older content beyond it, or, when a write fails, with what was written so far; when only the look at the finished file fails, the call fails although all was written |

## Left out

- RunKeepsUnique: the case without moving restores; `FileNaming.RunUniqueIff` decides all runs.
- RunKeeps: that of the cache, like CacheAgrees, leaves out the actions that break the agreement: restores into folders never loaded, adds and uploads there (from the page of the bin, before the root is loaded) and renames on that page. `RestoreUnloadedIff`, `AddUnloadedIff`, `UploadUnloadedIff` and `RenameInBinIff` say exactly when each still agrees. Completions are ones the database accepts, and the order in which entries are sorted is left open.
- CacheAgrees: as for `RunKeeps`.
- CompletedStays: with requests as single steps; `UploadRaces.CompletedStaysIff` is the case of requests in two steps.
- CompletedStaysIff: the part of a completion after its checks is one step, as is the locked body of a chunk request; file contents while two merges write at once are not modelled.
- InterleavedKeeps: the locked body is one step; the mutexes that make it so are modelled apart, in `MutexMap`. Unsynchronised access to Go maps is not modelled.
- SelectMeaning: tables and columns are plain names and IS takes NULL or NOT NULL; other text spliced into a statement is not interpreted. Operators that no call can produce are printed but have no meaning.
- WriteToDisk: needs a positive chunk size, without which the loop of the original does not end; a short write without an error does not occur.
- Read: walks are over trees with proper names below a clean root path; errors and links met during a walk are not modelled.
- EndToEnd: removing files and chunks never fails; a disk that loses or changes a chunk file is not modelled.
- UploadGenerateId: of the database errors only a duplicate is modelled; any other opens no session either.
- MySQL itself: collation, column widths, foreign keys and the order of rows. Strings are compared exactly; recursive rows come out in generation order.
- The text of the rename, restore, listing, breadcrumb and session statements, which the original writes by hand; their effect on the tables is modelled.
- `SetColumn` and `AppendArgs` of a condition node, `UpdateModifiedFiles`, `GenerateHash`, `GetAllFiles`: easy members.
- HTTP, JSON, cookies, routing, logging and the React components; a handler is a step of an authenticated user, and response writing does not fail.
- The download itself: its name, path and length are modelled, not the transfer.
- CompareIff: `argon2.IDKey` panics when time or threads is 0, which a stored string can say; the model has no such outcome, and `LoginIsKeyEquality` is to be read for positive ones.
- Argon2id and SHA-256 as algorithms, random salts, UUIDs and clocks.
- Account creation, password and user name checks, configuration and setup scripts.
