# A verified model of the SQL client's core logic

The repository is a desktop SQL client: a Rust back end (MySQL, Redis, SQLite profile store, LAN file transfer) and a
TypeScript front end (SQL editor, data comparison). This project models the parts of it whose correctness is decided by
its own code and proves properties of them. `dafny verify dfyconfig.toml` checks everything.

What is modelled, by component:

- **LAN file transfer** (`Transfer`, `TransferHistory`, `TransferContent`, `TransferClashes`, `TransferCollisions`,
  `TransferMixing`, `TransferService`, `TransferTasks`, `RangeHeader`). The receiving side is a state machine whose
  steps are the handlers of the service, cut wherever they release the state lock, read or write the store of partial
  transfers, or touch a file, so that every interleaving is a sequence of steps. Proved over every run: sessions move
  only along their small machine, no byte is stored for a session that was never accepted, temporary files stay
  prefixes of what is sent, and delivered files are whole source files, at the places that they were accepted to. The
  class `Receiver` has one method for each phase and refines the machine step by step.
- **SQL editor** (`SqlScanner`, `SqlRegions`, `SqlTokens`, `SqlLexicon`, `SqlBrackets`, `SqlNames`, `SqlGroups`,
  `SqlAnalysis`, `SqlSources`, `SqlColumns`, `SqlDepth`). The three hand-written scanners are proved against
  one-character automata and thereby against each other; the statement under the cursor is the piece of a
  cursor-independent split; texts, names, groups and statements that are written from their parts are read back as
  exactly these parts.
- **Table designer** (`SchemaDiff`, `SchemaApply`, `SchemaMeaning`, `AlterStatements`, `TypeDetails`). The compiler from
  two column lists to ALTER clauses, a semantics of the clauses under which it reaches the drafted table, and a parser
  that gets the clauses, with the columns' own attributes, back from the emitted text.
- **Row editing** (`RowStatements`, `RowTemplates`, `RowMeaning`, `RowChanges`) and **exports** (`SqlExport`,
  `ExportedInserts`, `ExportComments`, `CsvExport`), proved against a lexer for MySQL text (`MysqlLexer`, sections 9.1,
  9.2 and 9.7 of the MySQL 8.0 Reference Manual), a parser of INSERT statements, and a reader of CSV (section 2 of RFC
  4180, with a line feed as line break).
- **Data comparison** (`RowCompare`, `RowPatch`, `TableCompare`, `CompareState`, `CompareTasks`) and **paging**
  (`Paging`).
- **Profile store** (`GroupStore`, `GroupMeaning`): groups and profiles under every sequence of operations.

`Text`, `JsonValues`, `OrderedMaps`, `Selections`, `SqlPrinters` and `SqlLists` hold what several models share. Where
the source changes state in loops, the model has a method with the same loop or a class with the same fields, and its
contract ties it to a function about which the lemmas speak.

Results where the code does not do the obvious thing, with the condition under which it does:

- `[...]` is known to the tokenizer only. For every text the scanners agree on a semicolon exactly when the automata with
  and without brackets judge it alike (`SqlBrackets.SemicolonTokensExactly`); with plain characters in brackets they
  agree on all exactly when no bracket holds one (`SqlTokens.AgreeUnlessInBrackets`).
- Statements below the fourth level of subqueries are not analysed, so that columns are lost (`SqlDepth.CutShows`).
- Unquoting does not undouble backticks; exactly the restorable names survive (`SqlNames.UnquoteQuoted`).
- Accepted can become Rejected, exactly when a rejection has passed its first phase by then
  (`Transfer.RejectedLaterExactly`).
- Task statuses are not absorbing: a status is terminal exactly when no late progress or note has come since the task
  ended (`TransferTasks.TerminalExactly`).
- A file that has shrunk at its sender counts more than its size; a task's count is an exact account exactly when each
  such file has been counted anew (`TransferTasks.BytesAreConserved`).
- A finished partial download is refused (`RangeHeader.OffsetIsServed`).
- Every step keeps prefixes, sources and positions exactly when no two transfers clash at one temporary file
  (`TransferClashes.KeptUnlessClashing`). Without clashes, every delivered file is its own source over all runs exactly
  when no transfer may go on with bytes of another that are not its own, or end at once beyond its own end
  (`TransferMixing.OwnUnlessMixing`), as transfers with colliding names may (`TransferCollisions.MixIsDelivered`).
- The designer trims names in some clauses and not in others; its statement fails exactly when a clause mentions a column
  by an untrimmed name (`SchemaApply.AlterReachesDraft`).
- The preview fails exactly when an identifier holds a question mark (`RowTemplates.PreviewExists`), and the reported
  row count includes updates that run nothing (`RowTemplates.ReportedRowsAreStatements`).
- The CSV header is not escaped; the file reads back exactly for clean names (`CsvExport.FileReadsBack`).
- The comment above exported INSERTs is broken off by a line break in a name. All exports of a table read back exactly
  when the later lines of its names hold only blanks and whole comments, none of them executed by the server
  (`ExportComments.AllParseBackExactly`).
- A written column type is read back exactly when its name is one word and it has no scale without a length
  (`TypeDetails.TypeDetailsReadBack`).
- The wrapped query's total is wrong exactly beyond the end (`Paging.WaysAgree`).
- The selected count is right exactly when no excluded signature belongs to several rows
  (`CompareState.CountIsShown`).
- Keys are compared as joined texts. Different keys may read alike, unless no name holds a comma or the key is a single
  such name (`TableCompare.JoinApart`, `TableCompare.SameKeyExactly`).
- A failed or cancelled comparison may still hand out a result (`CompareTasks.ResultIsOfCompletion`).

## Model

| member | source | states |
|---|---|---|
| Transfer.TempNamesCollide | desktop/src-tauri/src/data_transfer/service.rs:2032-2062 | two transfers share a temporary file exactly when their names differ only in characters that are no ASCII letters or digits |
| Transfer.RunsAreSound | desktop/src-tauri/src/data_transfer/service.rs:1256-1344 | over every run every session has an identifier that was drawn |
| Transfer.AcceptedOnlyFromPending | desktop/src-tauri/src/data_transfer/service.rs:711-781 | whatever runs in between, a step makes a session accepted only if it was pending at that step |
| Transfer.RejectedStays | desktop/src-tauri/src/data_transfer/service.rs:783-810 | no step changes a rejected session except by removing it |
| Transfer.RemovedNeverReturns | desktop/src-tauri/src/data_transfer/service.rs:1412-1450 | a session that is gone is in no later state of the run |
| Transfer.RejectedForever | desktop/src-tauri/src/data_transfer/service.rs:783-810 | from a rejected session on, every later state of the run has it rejected or never again |
| Transfer.AcceptedTurnsRejected | desktop/src-tauri/src/data_transfer/service.rs:798-805 | one step turns an accepted session into a rejected one exactly when it is the write phase of a rejection of this session |
| Transfer.RejectedLaterExactly | desktop/src-tauri/src/data_transfer/service.rs:783-810 | some continuation of a run rejects a session that is accepted now exactly when a rejection of it is past its read phase now |
| Transfer.AcceptedCanBeRejected | desktop/src-tauri/src/data_transfer/service.rs:783-810 | runs in which an accepted session is then rejected exist, for every identifier and peer: the rejection has begun before the acceptance ends |
| Transfer.OnlyAcceptedUpload | desktop/src-tauri/src/data_transfer/service.rs:1346-1377 | whoever is past the checks of an upload belongs to a session that was accepted earlier in the run |
| Transfer.FilesChangeOnlyByJobs | desktop/src-tauri/src/data_transfer/service.rs:1379-1403 | temporary and final files change only for a transfer past its checks |
| Transfer.StoredOnlyIfAccepted | desktop/src-tauri/src/data_transfer/service.rs:1346-1404 | whenever a step of a run changes a stored file for a session, the session was accepted earlier in the run |
| TransferHistory.SessionMoves | desktop/src-tauri/src/data_transfer/service.rs:711-810 | one step prepares a session with the files of its request, accepts it with the moved files, rejects it, or takes one file from it, and does nothing else to one that it leaves |
| TransferHistory.WordsAreKept | desktop/src-tauri/src/data_transfer/service.rs:711-781 | over every run, every session has the peer, address, files and tokens that were offered, and an accepted one its files at the paths that the acceptance named; so have all uploads in progress |
| TransferHistory.LetInExactly | desktop/src-tauri/src/data_transfer/service.rs:1346-1377 | an upload is let in exactly for an accepted session that still has the file, from the address that offered it and with the token that was offered for this file |
| TransferHistory.SendersKeepTheirPlace | desktop/src-tauri/src/data_transfer/service.rs:1346-1404 | whoever uploads for a session does so under the peer that offered it, to the path that its file was accepted to |
| TransferHistory.UploadsGoWhereAccepted | desktop/src-tauri/src/data_transfer/service.rs:1403-1410 | over every possible run, an upload that finishes puts the source of its file, as the peer offered it, at the path that the file was accepted to, and nothing elsewhere |
| TransferContent.PathsStaySound | desktop/src-tauri/src/data_transfer/service.rs:1256-1320 | every step keeps every recorded path the temporary file of its own transfer |
| TransferContent.ContentStaysSound | desktop/src-tauri/src/data_transfer/service.rs:1379-1410 | unless two transfers clash, every step keeps every temporary file a prefix of its source and every delivered file a source |
| TransferContent.ResumeIsSafe | desktop/src-tauri/src/data_transfer/service.rs:998-1179 | the same over every possible run of prepare, accept, poll, upload, ranged download, failure and retry |
| TransferContent.ExclusiveRunsAreSafe | desktop/src-tauri/src/data_transfer/service.rs:1346-1410 | in particular when at most one transfer at a time is between measuring and renaming any one file |
| TransferContent.FinishDelivers | desktop/src-tauri/src/data_transfer/service.rs:1403-1410 | the rename at the end of a body puts exactly the source in the final place and removes the temporary file |
| TransferContent.FilesAreTheirSources | desktop/src-tauri/src/data_transfer/service.rs:1403-1410 | in every state of every possible run each final path holds exactly the source of the transfer that was last finished there |
| TransferContent.RetryDelivers | desktop/src-tauri/src/data_transfer/service.rs:1346-1410 | from any sound state an upload that starts at the stored length and sends the rest delivers the whole source |
| TransferClashes.TwoWritersBreak | desktop/src-tauri/src/data_transfer/service.rs:1379-1403 | two writers that append from one offset make the file longer than its source, for every source and offset |
| TransferClashes.TruncationBreaks | desktop/src-tauri/src/data_transfer/service.rs:1383-1404 | a writer that starts anew makes one that appends deliver only the end of its source, without an error |
| TransferClashes.RewritingIsHarmless | desktop/src-tauri/src/data_transfer/service.rs:1383-1402 | a writer that started anew keeps the file a prefix of its source, however long others have made it |
| TransferClashes.KeptUnlessClashing | desktop/src-tauri/src/data_transfer/service.rs:1379-1404 | in a sound state every honest step keeps prefixes, sources and the positions at which transfers go on exactly when no transfer is about to change a file at whose present length another will go on |
| TransferCollisions.SafeUnlessColliding | desktop/src-tauri/src/data_transfer/service.rs:2032-2062 | temporary files are prefixes of all their sources over every possible run exactly when transfers that share one carry the same bytes |
| TransferCollisions.MixIsDelivered | desktop/src-tauri/src/data_transfer/service.rs:998-1015 | for any two transfers that share a temporary file, and any offset up to which they differ or that is beyond the end of the second, there is a possible run that delivers the beginning of one with the rest of the other, or with nothing, without an error |
| TransferMixing.OwnUnlessMixing | desktop/src-tauri/src/data_transfer/service.rs:1346-1410 | over every possible run each final path holds the source of the transfer last finished there exactly when no transfer may go on with bytes of another that are not its own |
| TransferService.ChunkingDoesNotMatter | desktop/src-tauri/src/data_transfer/service.rs:1395-1402 | however a body is cut into chunks, the file grows by exactly the body |
| TransferService.Receiver.StartPrepare | desktop/src-tauri/src/data_transfer/service.rs:1256-1266 | a prepare request begins with none of its files resolved |
| TransferService.Receiver.LoadFile | desktop/src-tauri/src/data_transfer/service.rs:1268-1274 | the record of one file is read |
| TransferService.Receiver.ResolveFile | desktop/src-tauri/src/data_transfer/service.rs:2032-2062 | a recorded file that still exists is resumed, others get a new place |
| TransferService.Receiver.RecordFile | desktop/src-tauri/src/data_transfer/service.rs:1284-1310 | the paths of one file are recorded and join the session |
| TransferService.Receiver.PrepareFiles | desktop/src-tauri/src/data_transfer/service.rs:1266-1311 | the loop over the offered files, in any order and when nothing runs in between, resolves each as the store was before and records it once |
| TransferService.Receiver.InsertSession | desktop/src-tauri/src/data_transfer/service.rs:1325-1335 | the insertion of the session, with all its files, is one step of the machine |
| TransferService.Receiver.ReadForAccept | desktop/src-tauri/src/data_transfer/service.rs:720-738 | the read phase of accepting goes on exactly for a pending session |
| TransferService.Receiver.RecordAccepted | desktop/src-tauri/src/data_transfer/service.rs:740-758 | the file gets its new final path, in the session to be and in its record, and keeps resource, token and temporary path; no other file or record changes |
| TransferService.Receiver.CommitAccept | desktop/src-tauri/src/data_transfer/service.rs:760-775 | the write phase accepts exactly a session that is still pending, and reports an error when its task is missing |
| TransferService.Receiver.AcceptIncomingTask | desktop/src-tauri/src/data_transfer/service.rs:711-781 | an acceptance during which nothing else runs: each file of the session has the final path that was asked for it, agrees with its record and keeps all else; no other session changes |
| TransferService.Receiver.RecordAllAccepted | desktop/src-tauri/src/data_transfer/service.rs:740-758 | the loop over the files, in any order, moves each to the path that was asked for it |
| TransferService.Receiver.ReadForReject | desktop/src-tauri/src/data_transfer/service.rs:783-796 | the read phase of rejecting goes on exactly for a pending session |
| TransferService.Receiver.CommitReject | desktop/src-tauri/src/data_transfer/service.rs:798-805 | the write phase rejects the session in whatever status it is |
| TransferService.Receiver.CommitCancel | desktop/src-tauri/src/data_transfer/service.rs:1432-1450 | the sender's cancellation removes the session |
| TransferService.Receiver.AnswerStatus | desktop/src-tauri/src/data_transfer/service.rs:1452-1501 | an accepted session is answered with the tokens of its files and the stored lengths, others with neither; a rejected one is removed |
| TransferService.Receiver.CheckUpload | desktop/src-tauri/src/data_transfer/service.rs:1346-1377 | an upload goes on exactly for the session's peer, when accepted, with the file's token |
| TransferService.Receiver.MeasureUpload | desktop/src-tauri/src/data_transfer/service.rs:1379-1381 | an upload goes on exactly at the stored length |
| TransferService.Receiver.LoadDownload | desktop/src-tauri/src/data_transfer/service.rs:1090-1095 | the record of a download is read |
| TransferService.Receiver.ChooseDownload | desktop/src-tauri/src/data_transfer/service.rs:2041-2061 | a download resumes a recorded partial whose file exists and starts anew otherwise |
| TransferService.Receiver.MeasureDownload | desktop/src-tauri/src/data_transfer/service.rs:2045-2049 | what is stored is measured in a step of its own, and counts as nothing if it is gone by then |
| TransferService.Receiver.RecordDownload | desktop/src-tauri/src/data_transfer/service.rs:1105-1116 | the paths of a download are recorded |
| TransferService.Receiver.OpenFile | desktop/src-tauri/src/data_transfer/service.rs:1383-1393 | the file is opened to append after an offset and emptied without one |
| TransferService.Receiver.ReceiveBody | desktop/src-tauri/src/data_transfer/service.rs:1395-1402 | the loop over the chunks is the machine's steps, whatever others do to the file; undisturbed, it appends exactly the body |
| TransferService.Receiver.RenameToFinal | desktop/src-tauri/src/data_transfer/service.rs:1403-1404 | the temporary file becomes the final one |
| TransferService.Receiver.DropSessionFile | desktop/src-tauri/src/data_transfer/service.rs:1412-1420 | the file leaves its session, and the last one ends it |
| TransferService.Receiver.FailRequest | desktop/src-tauri/src/data_transfer/service.rs:1395-1402 | an error or disconnect in any phase rolls nothing back |
| TransferTasks.StaysAccounted | desktop/src-tauri/src/data_transfer/service.rs:1843-1918 | every event keeps the totals equal to the sums over the files and every file within its size |
| TransferTasks.BytesAreConserved | desktop/src-tauri/src/data_transfer/service.rs:1782-2014 | over every sequence of events the total stays and the count is the sum over the files; it is an exact account, never above the total, exactly when each file stored beyond its size has been counted anew |
| TransferTasks.OverlongUntilRecounted | desktop/src-tauri/src/data_transfer/service.rs:1843-1918 | a file counts more than its size exactly as long as it has since the start and no progress or completion has counted it anew |
| TransferTasks.ShrunkFileOvercounts | desktop/src-tauri/src/data_transfer/service.rs:1266-1322 | a file re-offered with less than is stored of it starts above the total, and only such a file does |
| TransferTasks.LateProgressRevives | desktop/src-tauri/src/data_transfer/service.rs:1843-1994 | one event makes a terminal status non-terminal exactly when it is progress of a listed file or a note of another status |
| TransferTasks.TerminalExactly | desktop/src-tauri/src/data_transfer/service.rs:1843-2014 | after any events the status is terminal exactly when the task has ended and nothing has revived it since, while the finishing time tells only that it ended once |
| TransferTasks.CancelIsRemembered | desktop/src-tauri/src/data_transfer/service.rs:1939-2014 | once cancelled, every later failure reads as cancelled, whatever happens in between |
| TransferTasks.TaskTable.CreateTask | desktop/src-tauri/src/data_transfer/service.rs:1782-1841 | the totals of a new task are the sums over its files, all of them pending |
| TransferTasks.TaskTable.UpdateFileProgress | desktop/src-tauri/src/data_transfer/service.rs:1843-1877 | progress is capped at the file's size and the total summed anew; unknown tasks and files change nothing |
| TransferTasks.TaskTable.FinishTaskFile | desktop/src-tauri/src/data_transfer/service.rs:1879-1918 | a completed file counts in full, a skipped one as it was |
| TransferTasks.TaskTable.FinishFailure | desktop/src-tauri/src/data_transfer/service.rs:1939-1959 | exactly under the cancel flag a failure reads as canceled; message and time are set, counts, flag and all other tasks stay |
| TransferTasks.TaskTable.FinishSuccess | desktop/src-tauri/src/data_transfer/service.rs:1920-1937 | the task is completed with its time set; counts, flag and all other tasks stay |
| TransferTasks.TaskTable.Cancel | desktop/src-tauri/src/data_transfer/service.rs:2006-2014 | cancelling overrides every status and is accepted exactly for known tasks |
| RangeHeader.OffsetIsServed | desktop/src-tauri/src/data_transfer/service.rs:2501-2518 | the header that a download sends is served exactly when the offset is 0, or below the size and a number of 64 bits, and from that offset |
| RangeHeader.ContentRangeParses | desktop/src-tauri/src/data_transfer/service.rs:1567-1591 | the Content-Range field that is sent reads back to its three numbers (section 14.4 of RFC 9110) |
| RangeHeader.PartialReplyMatches | desktop/src-tauri/src/data_transfer/service.rs:1567-1591 | a partial reply starts at the offset, ends with the file, and its length is the Content-Length |
| SqlScanner.ScanStep | frontend/src/SqlEditor.tsx:1897-1962 | one step of a scanner stays aligned with the automaton and passes no ordinary character unseen |
| SqlScanner.IsInsideQuotedRegion | frontend/src/SqlEditor.tsx:2333-2422 | the loop answers whether the automaton is inside quotes or a comment at the cursor |
| SqlScanner.ExtractCurrentStatement | frontend/src/SqlEditor.tsx:1879-1992 | for every text and cursor the result is the piece of the cursor-independent split that holds the cursor |
| SqlScanner.PiecesAreDelimited | frontend/src/SqlEditor.tsx:1963-1991 | every piece of the split is delimited by separators and has none inside |
| SqlScanner.DelimitedIsPiece | frontend/src/SqlEditor.tsx:1963-1991 | every stretch that is so delimited is a piece of the split |
| SqlScanner.OneWindowPerCursor | frontend/src/SqlEditor.tsx:1879-1992 | each cursor lies in exactly one piece |
| SqlScanner.WindowsRebuild | frontend/src/SqlEditor.tsx:1879-1992 | the pieces joined by semicolons are the text |
| SqlScanner.SamePieceSameStatement | frontend/src/SqlEditor.tsx:1879-1992 | cursors in one piece get the same statement |
| SqlRegions.RegionsAreSegments | frontend/src/SqlEditor.tsx:2333-2422 | in a text written from single characters, quoted texts with doubled quotes and comments, a cursor is inside exactly within a quoted text or comment, and a character is ordinary exactly when it stands on its own and begins no mark |
| SqlRegions.SplitsExactly | frontend/src/SqlEditor.tsx:1963-1991 | statements are separated exactly at the ordinary semicolons before which no ordinary parenthesis is open |
| SqlTokens.TokenizeSql | frontend/src/SqlEditor.tsx:1994-2117 | the tokenizer's loop yields the tokens of the recursive cut of the text |
| SqlTokens.CutsRebuild | frontend/src/SqlEditor.tsx:1994-2117 | the cuts, in order, are the whole text |
| SqlTokens.TokensAreTheRest | frontend/src/SqlEditor.tsx:1994-2117 | the tokens are the cuts that are neither one space nor one comment, with exactly their text |
| SqlLexicon.TokensAreWritten | frontend/src/SqlEditor.tsx:1994-2117 | whatever strings, quoted and bracketed names, words, numbers, marks, operators, spaces and comments a text is written from, exactly these tokens are read from it, with their kinds and texts |
| SqlTokens.CutAgrees | frontend/src/SqlEditor.tsx:1994-2117 | outside brackets every cut ends where the automaton is back in step and holds a plain semicolon only as a token |
| SqlTokens.ScannersAgree | frontend/src/SqlEditor.tsx:2333-2422 | while the automaton is in step after every bracket, the semicolon tokens are exactly the semicolons outside brackets, quotes and comments |
| SqlTokens.PlainBracketsAgree | frontend/src/SqlEditor.tsx:2055-2064 | this is so whenever brackets hold no quote, dash, slash or hash, and their semicolons are ordinary text to the others |
| SqlTokens.AgreeUnlessInBrackets | frontend/src/SqlEditor.tsx:2055-2064 | then the scanners agree on every semicolon exactly when no bracket holds one |
| SqlTokens.QuotedBracketsAreNoTokens | frontend/src/SqlEditor.tsx:2055-2064 | quoted or commented brackets are no bracket tokens |
| SqlTokens.QuoteInBracketDisagrees | frontend/src/SqlEditor.tsx:2055-2064 | after a quote in a bracket a semicolon is a token for one scanner and quoted for the others |
| SqlBrackets.SemicolonTokensExactly | frontend/src/SqlEditor.tsx:1994-2117 | for every text, a semicolon is a token exactly when it is ordinary for an automaton that knows brackets, and the scanners agree on it exactly when the automata with and without brackets do |
| SqlTokens.ReadQuoted | frontend/src/SqlEditor.tsx:2309-2331 | the loop ends after the first closing quote that is not doubled |
| SqlTokens.ReadUntilBlockCommentEnd | frontend/src/SqlEditor.tsx:2298-2307 | the loop ends after the first comment end, or with the text |
| SqlNames.ReadQualifiedIdentifier | frontend/src/SqlEditor.tsx:2204-2220 | the loop reads the name and all dotted parts after it |
| SqlNames.QuotedCut | frontend/src/SqlEditor.tsx:2284-2288 | every quoted name, before a dot or the end, is exactly one token |
| SqlNames.PathTokenizes | frontend/src/SqlEditor.tsx:1994-2117 | dot-joined quoted names tokenize to the names and dots, for every list of names |
| SqlNames.UnquoteQuoted | frontend/src/SqlEditor.tsx:2276-2288 | unquoting undoes quoting exactly for the restorable names |
| SqlLexicon.QuotesAreTakenOff | frontend/src/SqlEditor.tsx:2276-2282 | backticks, double quotes and brackets are taken off every name that neither starts nor ends with one |
| SqlNames.QualifiedRoundTrip | frontend/src/SqlEditor.tsx:2204-2220 | reading the tokens of dot-joined quoted names consumes all of them, and gives the names exactly when each is restorable |
| SqlGroups.ReadParenthesizedTokens | frontend/src/SqlEditor.tsx:2148-2181 | the loop returns the stretch of the reference function |
| SqlGroups.ParenthesizedIsMatched | frontend/src/SqlEditor.tsx:2148-2181 | the stretch ends at the partner of the parenthesis and is balanced, or is all the rest when there is none, and is strictly shorter |
| SqlGroups.SplitTopLevelTokens | frontend/src/SqlEditor.tsx:2222-2248 | the loop returns the groups of the reference function |
| SqlGroups.GroupsRebuild | frontend/src/SqlEditor.tsx:2222-2248 | the groups joined by the delimiter are the tokens |
| SqlGroups.GroupsAreUndivided | frontend/src/SqlEditor.tsx:2222-2248 | no group has a top-level delimiter left |
| SqlGroups.UndividedIsOneGroup | frontend/src/SqlEditor.tsx:2222-2248 | tokens without a top-level delimiter are one group |
| SqlAnalysis.AnalyzeSqlTokens | frontend/src/SqlEditor.tsx:1324-1352 | the mutually recursive parsers end, each recursion on strictly fewer tokens, with the analysis of the reference functions, about which EverySourceIsFound and EveryItemIsProjected speak |
| SqlAnalysis.ParseCtes | frontend/src/SqlEditor.tsx:1354-1420 | the loop over common table expressions yields the reference list and position |
| SqlAnalysis.ParseRelations | frontend/src/SqlEditor.tsx:1422-1483 | the loops over `from` and `join` yield the reference relations |
| SqlAnalysis.ReadRelation | frontend/src/SqlEditor.tsx:1485-1541 | one relation, by subquery or name, with its alias, is the reference one |
| SqlAnalysis.ParseProjectionColumns | frontend/src/SqlEditor.tsx:1543-1626 | the loop over the projected items yields the reference columns |
| SqlAnalysis.ReadIdentifierList | frontend/src/SqlEditor.tsx:2119-2146 | the loop collects the names at the first level of the list and stops after its partner |
| SqlAnalysis.InnerIsShallower | frontend/src/SqlEditor.tsx:2148-2181 | what is read between parentheses is nested at least one level less |
| SqlAnalysis.CutDoesNotShow | frontend/src/SqlEditor.tsx:1330-1336 | with at most four nested levels of parentheses the depth limit changes nothing of the analysis |
| SqlDepth.CutShows | frontend/src/SqlEditor.tsx:1330-1336 | a balanced statement with one column, wrapped in five or more subqueries, loses it by the limit and only by it |
| SqlDepth.NestedTextIsCut | frontend/src/SqlEditor.tsx:1330-1336 | the text of nested subqueries has its column for up to four levels and loses it from the fifth on |
| SqlAnalysis.RelationsAreKnown | frontend/src/SqlEditor.tsx:1715-1768 | every relation is a catalog table with its columns, one of the statement's own expressions, or a subquery; the columns of the latter two are those listed or those that their own analysis projects |
| SqlSources.EverySourceIsFound | frontend/src/SqlEditor.tsx:1354-1541 | every statement built from its parts has exactly its common table expressions, and exactly one relation for each table, expression or subquery after `from`, `join` or a comma, outside parentheses and before the first word that ends them, in order and under its alias |
| SqlColumns.EveryItemIsProjected | frontend/src/SqlEditor.tsx:1543-1713 | every projection built from stars, paths and expressions, with an alias or without, has exactly the columns that its items give; each name once, where it first comes up, a star keeping an earlier column and other items taking its place |
| SqlColumns.MapIsKnown | frontend/src/SqlEditor.tsx:1592-1598 | names and aliases lead to the last relation that goes by them, each listed once, where it first comes up |
| SchemaDiff.ValidateDraftColumns | desktop/src-tauri/src/mysql_service.rs:916-931 | the loop accepts exactly the non-empty drafts without blank names, blank types or names that trim alike |
| SchemaDiff.BuildAlterTableStatements | desktop/src-tauri/src/mysql_service.rs:789-873 | the loops emit exactly the reference clauses, joined into one statement, or none at all |
| SchemaApply.AlterReachesDraft | desktop/src-tauri/src/mysql_service.rs:789-873 | the emitted clauses turn the current table into the drafted one with its key order, and fail exactly when one mentions a column by an untrimmed name |
| SchemaApply.TrimmedDraftIsReached | desktop/src-tauri/src/mysql_service.rs:789-873 | with trimmed names the draft is always reached as it stands |
| SchemaMeaning.NothingToAlter | desktop/src-tauri/src/mysql_service.rs:858-860 | nothing is emitted exactly when both lists have the same names, the same attributes under each, and the same key in the same order |
| SchemaApply.SameUpToKey | desktop/src-tauri/src/mysql_service.rs:933-981 | a column without a compared difference keeps its definition up to the NOT NULL of the key |
| SchemaMeaning.DefinitionSays | desktop/src-tauri/src/mysql_service.rs:943-1014 | what is written for a column is automatic exactly when it is, NOT NULL exactly when it is in the key or not nullable, has its trimmed comment, a default exactly when it has one and with its value, and its type name with the length and scale that are read back |
| SchemaMeaning.ClausesAreSaid | desktop/src-tauri/src/mysql_service.rs:789-858 | the clauses are exactly one drop for each column that is gone, one modification or addition with the drafted attributes for each column that differs or is new, and the change of the key, in order |
| SchemaMeaning.EmittedTextSays | desktop/src-tauri/src/mysql_service.rs:789-873 | the server reads exactly these clauses from the emitted text of plain columns, for the right table |
| SchemaMeaning.DraftIsReached | desktop/src-tauri/src/mysql_service.rs:789-873 | the emitted clauses turn the table that the current columns describe into the one that the draft describes, attribute by attribute and with its key in order, or fail exactly when one mentions a column by an untrimmed name |
| AlterStatements.AlterTextParsesBack | desktop/src-tauri/src/mysql_service.rs:866-872 | the text of a statement parses back to its clauses: names, types, NOT NULL, defaults, automatic marks, comments and keys, whatever quoted texts hold |
| AlterStatements.EmittedIsRead | desktop/src-tauri/src/mysql_service.rs:789-873 | what is emitted for plain types and defaults is read as exactly the clauses that reach the draft |
| AlterStatements.PlainIsReadable | desktop/src-tauri/src/mysql_service.rs:943-981 | a column with a type in plain words and a plain default is written in a form that can be read back |
| AlterStatements.PlainDefaultsExactly | desktop/src-tauri/src/mysql_service.rs:983-1014 | a default is a keyword, quoted text or an unsigned number after an optional minus exactly when it is no number of a numeric type, or one of this shape |
| TypeDetails.TypeDetailsReadBack | desktop/src-tauri/src/mysql_service.rs:762-787 | a written type is read back as its name, length and scale exactly when the name is one word without a parenthesis and no scale goes without a length |
| TableCompare.CompareSingleTable | frontend/src/mockData.ts:535-709 | the mode, key and compared columns are those of the declared columns; by key, the differences turn the target rows into the source rows on the compared columns and report rows, keys and columns of their own side; otherwise of the rows that agree those are reported that one side has beyond the other; samples are the first ones up to the clamped limit |
| TableCompare.JoinApart | frontend/src/mockData.ts:554-562 | joined key names tell the names when none of them holds a comma |
| TableCompare.SameKeyExactly | frontend/src/mockData.ts:554-562 | a key that reads alike is the same key, whatever the other table has, exactly when this one is a single name, not empty and without a comma |
| RowCompare.CompareKeyed | frontend/src/mockData.ts:594-654 | the keyed loops yield the reference differences and their samples |
| RowCompare.CompareFullRow | frontend/src/mockData.ts:655-686 | the grouped loops yield the reference differences and their samples |
| RowPatch.KeyedPatchGivesSource | frontend/src/mockData.ts:594-654 | every delete and update finds its row and every insert a free key, and the result has the source's keys and agrees with it on the compared columns, untouched elsewhere |
| RowPatch.ReportedOnce | frontend/src/mockData.ts:594-654 | a key is inserted, deleted or updated exactly when it is only in the source, only in the target, or in both with a difference |
| RowPatch.UniqueKeysLoseNothing | frontend/src/mockData.ts:595-604 | with one row to a key the keyed form lists all rows in order |
| RowPatch.FullRowPatchGivesSource | frontend/src/mockData.ts:655-686 | target plus inserts minus deletes is the source as a multiset of signatures, the deletes are there to delete, and nothing is both inserted and deleted |
| RowPatch.FullRowCounts | frontend/src/mockData.ts:668-686 | each signature is inserted or deleted by as much as one side has it more often |
| RowPatch.FullRowSamplesAreRows | frontend/src/mockData.ts:655-686 | every reported row is a row of its side under its own signature |
| RowCompare.LoadedIsAll | frontend/src/mockData.ts:755-790 | loading detail pages until one has no more gives all items once and in order, whatever page size is asked for |
| MysqlLexer.LexPieces | desktop/src-tauri/src/mysql_service.rs:758-760 | well spaced names, literals, numbers, words and marks are read back one by one, closed exactly where they were printed |
| MysqlLexer.LexQuoted | desktop/src-tauri/src/mysql_service.rs:758-760 | a quoted identifier is one name lexeme, whatever it holds |
| MysqlLexer.LexText | desktop/src-tauri/src/data_export.rs:631-633 | a quoted literal is one string lexeme, whatever it holds |
| RowStatements.RenderStatementWithParams | desktop/src-tauri/src/table_data.rs:439-464 | the loop over the parts replaces the i-th question mark by the i-th literal, and fails exactly when the counts differ |
| RowStatements.PreviewDataStatements | desktop/src-tauri/src/table_data.rs:227-273 | the three loops yield the rendered plan of the changes, or nothing when one cannot be built or rendered |
| RowStatements.Server.ApplyTableDataChanges | desktop/src-tauri/src/table_data.rs:87-166 | for a table with a primary key, exactly the plan whose rendering is reported is committed, statement by statement, or nothing is |
| RowTemplates.TemplateReadsBack | desktop/src-tauri/src/table_data.rs:439-464 | a statement renders exactly when no name holds a question mark, and the rendered text reads as the template with the i-th value in place, whatever the values hold |
| RowTemplates.BuiltIsTemplate | desktop/src-tauri/src/table_data.rs:275-437 | every built delete, update and insert is a template with one placeholder for each parameter, free of question marks exactly when its names are |
| RowTemplates.PreviewExists | desktop/src-tauri/src/table_data.rs:227-273 | the preview exists exactly when every change can be built and no name in its statement holds a question mark |
| RowTemplates.ShownIsExecuted | desktop/src-tauri/src/table_data.rs:109-157 | the shown texts are, in order, one for each executed statement, each read as that statement with its parameters |
| RowTemplates.ReportedRowsAreStatements | desktop/src-tauri/src/table_data.rs:161-166 | the reported rows equal the executed statements exactly when every update sets some column |
| RowMeaning.DeleteIsRead | desktop/src-tauri/src/table_data.rs:275-302 | a rendered delete is read as one on the table where each key column has its own value |
| RowMeaning.UpdateIsRead | desktop/src-tauri/src/table_data.rs:304-362 | a rendered update is read as one that sets each column to its own value where each key column has its own |
| RowMeaning.InsertIsRead | desktop/src-tauri/src/table_data.rs:364-420 | a rendered insert is read as one that gives each column its own value |
| RowMeaning.SetColumnsAre | desktop/src-tauri/src/table_data.rs:311-315 | an update names exactly the table's columns that it has a value for |
| RowMeaning.InsertColumnsAre | desktop/src-tauri/src/table_data.rs:370-382 | an insert names exactly the columns with a value, but for automatic ones whose value is null |
| RowChanges.KeysArePicked | desktop/src-tauri/src/table_data.rs:97-102 | the key columns are exactly the columns marked as primary key, in their order |
| RowChanges.SetColumnsArePicked | desktop/src-tauri/src/table_data.rs:311-315 | an update sets exactly the columns with a value, in the order of the table |
| RowChanges.InsertColumnsArePicked | desktop/src-tauri/src/table_data.rs:370-382 | an insert names exactly the columns with a value but for automatic ones whose value is null, in the order of the table |
| RowChanges.BuildableExactly | desktop/src-tauri/src/table_data.rs:275-437 | a change can be built exactly when the table has a key, the row key has a value for each key column, and all values fit into 64 bits; inserts and updates without columns need less |
| RowChanges.ShownStatements | desktop/src-tauri/src/table_data.rs:227-273 | what is shown is one delete for each deleted row, one update for each updated row that sets a column and one insert for each inserted row, in order; deletes and updates are read as naming exactly the primary key columns, each with the row key's value |
| SqlExport.BuildTableDataSqlText | desktop/src-tauri/src/data_export.rs:408-461 | the loops over chunks and rows write the reference text |
| ExportedInserts.BodyParsesBack | desktop/src-tauri/src/data_export.rs:433-460 | the statements parse back to themselves, whatever names and values hold |
| ExportComments.ExportParsesBack | desktop/src-tauri/src/data_export.rs:408-461 | the whole text, comments included, parses back, to nothing when there is nothing to export, if the later lines of the names hold only blanks and whole comments, none of them executed |
| ExportComments.NothingParsesBackExactly | desktop/src-tauri/src/data_export.rs:408-430 | when there is nothing to export, it does so exactly then |
| ExportComments.AllParseBackExactly | desktop/src-tauri/src/data_export.rs:408-461 | all exports of a table parse back exactly when its names are such |
| ExportedInserts.InsertsHoldAllRows | desktop/src-tauri/src/data_export.rs:433-460 | together the statements hold every row once and in order |
| ExportedInserts.InsertCount | desktop/src-tauri/src/data_export.rs:433-434 | there are as few statements as 200 rows each allow, each for the table and columns with 1 to 200 rows |
| ExportedInserts.CellText | desktop/src-tauri/src/data_export.rs:615-643 | a rendered cell is the text of its value: flags as 1 and 0, missing and null as NULL, nested JSON as its text |
| SqlExport.ExportIsHeaded | desktop/src-tauri/src/data_export.rs:415-422 | every export starts with its title, its source and its number of rows, each in a comment line |
| ExportComments.StrayTextFails | desktop/src-tauri/src/data_export.rs:416-420 | no export parses back when the later lines of the names start, after blanks and comments, with anything but the word INSERT |
| ExportComments.ExecutedCommentFails | desktop/src-tauri/src/data_export.rs:416-420 | nor when they hold a comment that the server executes |
| ExportComments.OpenCommentExactly | desktop/src-tauri/src/data_export.rs:416-460 | when they leave a comment open, an export parses back exactly when what follows the next end of a comment does; never without one |
| ExportComments.BrokenNamesFail | desktop/src-tauri/src/data_export.rs:416-420 | so for every database name whose second line starts with a letter other than I |
| ExportComments.ExecutedNamesFail | desktop/src-tauri/src/data_export.rs:416-420 | so for every database name whose second line starts with a comment that is executed, whatever it holds |
| ExportComments.RemarkedNamesHold | desktop/src-tauri/src/data_export.rs:416-420 | a database name whose second line is a comment does no harm |
| CsvExport.ExportFileWriter.constructor | desktop/src-tauri/src/data_export.rs:513-543 | the file starts with the header line or the opening bracket |
| CsvExport.ExportFileWriter.WriteRow | desktop/src-tauri/src/data_export.rs:545-576 | a row adds one escaped line, or one object after a comma unless it is the first |
| CsvExport.ExportFileWriter.Finish | desktop/src-tauri/src/data_export.rs:578-588 | the JSON array is closed on a line of its own |
| CsvExport.Export | desktop/src-tauri/src/data_export.rs:507-588 | a whole export is the header and one line for each row, or one JSON array of all objects |
| CsvExport.RowsReadBackExactly | desktop/src-tauri/src/data_export.rs:545-554 | written rows are read back as their field lists exactly when each has a field |
| CsvExport.FieldReadBack | desktop/src-tauri/src/data_export.rs:600-606 | an escaped field is read back and ends where it was written |
| CsvExport.CellIsWritten | desktop/src-tauri/src/data_export.rs:590-598 | a cell is written as nothing for null, as a word for flags, by its value for numbers and as it is for texts |
| CsvExport.FileReadsBack | desktop/src-tauri/src/data_export.rs:532-532 | the file with its unescaped header is read back exactly when no name holds a comma, quote or line break |
| CsvExport.TotalLength | desktop/src-tauri/src/data_export.rs:600-613 | no text is read as records that were written in more characters, but for a last line break |
| GroupStore.RunsAreSound | desktop/src-tauri/src/local_store.rs:709-1073 | after any operations on a fresh store group names are distinct and not blank, and every group that a MySQL or Redis profile names exists |
| GroupStore.StepKeepsSound | desktop/src-tauri/src/local_store.rs:709-1073 | each operation keeps this |
| GroupStore.MovesAreCounted | desktop/src-tauri/src/local_store.rs:931-1036 | renaming and deleting a group report exactly the profiles of both kinds that they change |
| GroupStore.AssignsAreCounted | desktop/src-tauri/src/local_store.rs:1038-1073 | assigning puts exactly the named MySQL profiles into the group and reports how many they are; without the group it is refused |
| GroupStore.DedupedAreLast | desktop/src-tauri/src/local_store.rs:1934-1942 | deduplication keeps the last candidate of each name, sorted by name |
| GroupStore.ImportIsCounted | desktop/src-tauri/src/local_store.rs:774-911 | an import takes place exactly when the last candidate of every name is valid, reports one profile for each name, created or updated, and the table grows by the created ones |
| GroupMeaning.SavedIsStored | desktop/src-tauri/src/local_store.rs:709-772 | a MySQL profile is saved exactly when it is complete; its row then holds what was given, trimmed, with the known password if none was given, in its old place or as a new row, and no other row changes |
| GroupMeaning.SavedRedisIsStored | desktop/src-tauri/src/local_store.rs:595-662 | the same of Redis profiles |
| GroupMeaning.ImportedIsStored | desktop/src-tauri/src/local_store.rs:800-890 | an imported candidate updates the first row of its name or becomes a new one, with what was given, trimmed, and what was there where nothing was given |
| GroupMeaning.CreatedIsStored | desktop/src-tauri/src/local_store.rs:913-929 | a group is created exactly under a name that is not blank and that no group has |
| GroupMeaning.RenamedIsStored | desktop/src-tauri/src/local_store.rs:931-994 | a group is renamed exactly to a name that is not blank and that no other group has; the profiles that name it go with it, and nothing else changes |
| GroupMeaning.DeletedIsGone | desktop/src-tauri/src/local_store.rs:996-1036 | the deleted group goes, the profiles that name it are left without one, and nothing else changes |
| GroupMeaning.NoSuchGroup | desktop/src-tauri/src/local_store.rs:931-1073 | without the group, renaming it, deleting it and assigning to it are refused |
| GroupStore.LocalStore.SaveConnectionProfile | desktop/src-tauri/src/local_store.rs:709-772 | a valid profile is inserted or replaced with its group created, an invalid one changes nothing |
| GroupStore.LocalStore.SaveRedisConnectionProfile | desktop/src-tauri/src/local_store.rs:595-662 | the same for Redis profiles |
| GroupStore.LocalStore.ImportConnectionProfiles | desktop/src-tauri/src/local_store.rs:774-911 | the loop's transaction is committed whole or leaves the tables as they were |
| GroupStore.LocalStore.RenameDataSourceGroup | desktop/src-tauri/src/local_store.rs:931-994 | the group and all profiles that name it are renamed together, or nothing is |
| GroupStore.LocalStore.DeleteDataSourceGroup | desktop/src-tauri/src/local_store.rs:996-1036 | the group goes and its profiles are left without one |
| GroupStore.LocalStore.AssignProfilesToDataSourceGroup | desktop/src-tauri/src/local_store.rs:1038-1073 | the loop over the identifiers, in any order, moves the named profiles and counts them |
| GroupStore.LocalStore.CreateDataSourceGroup | desktop/src-tauri/src/local_store.rs:913-929 | a group is created exactly under a new name that is not blank |
| GroupStore.LocalStore.EnsureDataSourceGroup | desktop/src-tauri/src/local_store.rs:1838-1870 | a named group that is missing is created |
| CompareTasks.CompareTaskManager.PruneTasks | desktop/src-tauri/src/compare_task_manager.rs:198-225 | pruning keeps every unfinished task, evicts the oldest finished ones first, and leaves at most 128 or the unfinished ones |
| CompareTasks.CompareTaskManager.RegisterTask | desktop/src-tauri/src/compare_task_manager.rs:43-67 | registering prunes and adds a pending entry |
| CompareTasks.CompareTaskManager.TakeTaskResult | desktop/src-tauri/src/compare_task_manager.rs:168-177 | taking returns and removes the entry |
| CompareTasks.CompareTaskManager.Update | desktop/src-tauri/src/compare_task_manager.rs:179-187 | an event changes the entry it names and no other |
| CompareTasks.RunsAreSound | desktop/src-tauri/src/compare_task_manager.rs:43-188 | in every state of every run a task is finished exactly in terminal statuses, and a completed one has a result |
| CompareTasks.ResultIsOfCompletion | desktop/src-tauri/src/compare_task_manager.rs:92-127 | an entry has a result exactly when its comparison has completed since it was registered |
| CompareTasks.CancelIsKept | desktop/src-tauri/src/compare_task_manager.rs:123-147 | a task is to be cancelled exactly when that was asked for since it was registered |
| CompareTasks.LastReportTells | desktop/src-tauri/src/compare_task_manager.rs:68-121 | status, counts, table at work, message, result and time are those that the last report of the task says; when it stops, counts and result stay |
| CompareTasks.UnfinishedStays | desktop/src-tauri/src/compare_task_manager.rs:198-225 | an unfinished task stays in the table whatever else happens until it is finished or taken |
| CompareTasks.TakenOnce | desktop/src-tauri/src/compare_task_manager.rs:168-177 | after a task is taken its name is in the table again only after another registration |
| CompareTasks.EvictedIsPruned | desktop/src-tauri/src/compare_task_manager.rs:207-224 | removing the first of the finished tasks sorted by time is such a pruning |
| CompareState.CacheIsTailOfLog | frontend/src/features/compare/state.ts:99-181 | after any pages each list holds the last 300 items of its unbounded log and its length, and all other lists are empty |
| CompareState.LastToggleDecides | frontend/src/features/compare/state.ts:321-333 | a signature is excluded exactly when its last toggle unchecked it |
| CompareState.CountIsShown | frontend/src/features/compare/state.ts:213-245 | the selected count is the number shown as selected exactly when every excluded signature belongs to one difference |
| CompareState.BoxTellsShown | frontend/src/features/compare/state.ts:213-245 | then a box is checked exactly when there are differences and all are shown as selected, and half checked exactly when some are and some are not |
| CompareState.ExportAsksForShown | frontend/src/features/compare/state.ts:335-378 | the exported flags and exclusions ask for exactly the differences shown as selected |
| Paging.CollectPageWindow | desktop/src-tauri/src/mysql_service.rs:597-627 | the loop takes the first page and tells whether there is more |
| Paging.CollectOffsetPageWindow | desktop/src-tauri/src/mysql_service.rs:629-668 | the loop skips to the offset, takes the page and stops at the first row after it |
| Paging.PageableQuery | desktop/src-tauri/src/sql_console.rs:58-115 | the wrapped query yields the reference page, which is the slice |
| Paging.DirectQuery | desktop/src-tauri/src/sql_console.rs:117-217 | the direct query yields the reference page, which is the slice |
| Paging.ExecuteConsoleQuery | desktop/src-tauri/src/sql_console.rs:17-55 | a console query yields the reference page of its kind, of 1 to 500 rows and 200 by default |
| Paging.LoadTableData | desktop/src-tauri/src/table_data.rs:27-86 | a page of table rows is the wrapped one, of 1 to 500 rows and 100 by default |
| Paging.WaysAgree | desktop/src-tauri/src/sql_console.rs:92-93 | both ways agree in rows, totals, flags and ranges exactly when the offset is not beyond the end; a page is truncated exactly when rows follow; an exact total is then the count |
| Paging.PagesAre | desktop/src-tauri/src/sql_console.rs:58-217 | rows, totals, flags and shown range of a page in both ways, from the plain slice of the result |
| Paging.RangeIsWhereRowsAre | desktop/src-tauri/src/sql_console.rs:94-103 | the shown range is where the page's rows are |
| Paging.WalkGivesAllRows | desktop/src-tauri/src/sql_console.rs:58-115 | walking pages until one is not truncated gives all rows once and in order |

## Left out

- TransferContent.ResumeIsSafe: no two transfers clash at one temporary file and files that share one carry the same bytes (see TransferClashes, TransferCollisions and TransferMixing for what happens otherwise), and no source changes between two attempts.
- Transfer.RunsAreSound: identifiers of sessions are drawn fresh; renaming a file that another writer still holds open is not modelled.
- TransferService.Receiver.AcceptIncomingTask: the paths that the user's directory and the free names in it give are a parameter.
- TransferService.Receiver.ResolveFile: the length of a resumed file, which only the task counts, is not read here.
- SqlScanner.ScanStep: the source writes the step out in both scanners; here it is one method, and the three quote flags are one mode with its character.
- SqlTokens.ReadQuoted: the parameter that allows doubled quotes is true in every call and left out.
- SqlAnalysis.CutDoesNotShow: one direction only, as deeper parentheses may belong to expressions that hold no subquery; SqlDepth has statements in which the limit shows.
- SqlAnalysis.ParseProjectionColumns: the inner searches for aliases, wildcards and columns are functions, not loops; columns have a name and a type only.
- SqlSources.EverySourceIsFound: statements whose sources are all known; how the search goes on after an unknown name is in the reference function only.
- SqlColumns.EveryItemIsProjected: stars of relations that are not known and expressions without any name are not among the items.
- SchemaApply.AlterReachesDraft: column order (no FIRST or AFTER is emitted), indexes, and MySQL's rule that an automatic column needs a key are not modelled; names are compared as they are, not by MySQL's collation; that key columns are never nullable is assumed of the current table.
- AlterStatements.AlterTextParsesBack: types are words of letters with single spaces and at most two numbers, and numeric defaults are unsigned numbers after an optional minus; other types and defaults are written outside quotes as the user typed them.
- RowCompare.CompareKeyed: cells are JSON scalars, as `!==` compares nested values by identity; signatures are the compared cells themselves, not their JSON text.
- MysqlLexer.LexPieces: a part of MySQL's lexical grammar: no hexadecimal, bit or national literals, no variables, no numbers that start with a point, and backslash escapes are on; comments that servers execute, if only from some version on, are not read, and optimizer hints are skipped like other comments.
- ExportComments.ExportParsesBack: bit and hexadecimal literals for binary cells are taken as they are and excluded; the texts of fractional numbers are assumed to be unsigned numbers after their sign.
- ExportComments.StrayTextFails: an export with rows is not decided when the later lines of the names start with the word INSERT.
- ExportComments.AllParseBackExactly: reading back means on servers of every version; an executed comment with a version number is skipped by older servers, on which such an export does read back (the same holds of NothingParsesBackExactly and ExecutedNamesFail).
- RowTemplates.ShownIsExecuted: the same assumption on fractional numbers; date and time parameters do not come from JSON and are left out.
- CsvExport.Export: the JSON text of a row is made by the serialiser and taken as it is.
- GroupStore.RunsAreSound: identifiers are drawn fresh and callers name no profile by one still to be drawn; timestamps and the migration of older stores are left out.
- CompareTasks.CompareTaskManager.RegisterTask: time is a number of seconds; a poisoned lock and the sharing of a cancel flag beyond its entry are left out.
- CompareState.CacheIsTailOfLog: two tables whose joined names are equal share one entry, as in the source.
- Paging.PageableQuery: the result of a query is one fixed list of rows, in the same order each time.
- Paging.ExecuteConsoleQuery: statements without result columns are left out, and whether a query can be wrapped is given.
- Lower-casing and upper-casing is that of ASCII letters only.
- HTTP serving, multicast discovery, subnet scans, the sender's own task loop, share passwords and the task history in SQLite.
- MySQL, Redis and SQLite drivers, Redis commands, Navicat import files, plugins and runtime metrics.
- Completion suggestions, hover texts and clause detection by regular expression in the editor; all user interface.
- CREATE TABLE and query result exports and console statement normalisation, which would only add easier members.
- The comparison services of the back end, whose core is not part of this repository.
