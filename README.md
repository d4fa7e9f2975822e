# SQL practice app — a verified model of its core

The application is a Next.js site for learning SQL against a local SQLite
file, `app.db`. This project models its logic in Dafny:

- **Query gateway** (`POST /api/query`). It validates the request, opens the
  existing database file, prepares the statement and classifies it by its
  first keyword. A data query returns its rows; a mutation is run once. The
  route maps each failure to a status and always closes the handle it opened.
- **Catalog inspector** (`GET /api/tables`, `POST /api/table-preview`). The
  listing shows the user tables, without SQLite's internal `sqlite_%` tables,
  sorted by name. The preview first checks that the table exists, then
  returns at most twenty of its rows.
- **Practice page.** It covers:
  - the CSV export;
  - the bounded history, newest query first;
  - the cyclic question navigation;
  - the case-insensitive answer check;
  - the run guards;
  - every event handler, as a change of the page state.
- **Quiz page.** Each question is answered at most once and scored. The quiz
  advances, completes, restarts and retries, and is graded by a rounded
  percentage. The question bank has a fixed shape.
- **Seeding script.** The database file is removed and recreated, and fixed
  rows are inserted table by table. The model shows that the engine's
  PRIMARY KEY, UNIQUE and FOREIGN KEY checks admit every row. It also fixes
  what the listing and the preview show afterwards.
- **Lessons page.** A click toggles exactly one lesson open or closed. The
  level badge mapping is total.

The SQLite engine and the better-sqlite3 driver are an oracle, a `Database`
value in `driver.dfy`. It fixes whether the file exists and which faults the
driver raises: on open, on reading `sqlite_master`, on reading a table's rows,
and on close. It also fixes what preparing any SQL text yields (rows, column
metadata, run counts or an error), and the catalog and table contents. The
routes make their calls through a `Connection` object. The connection logs
those calls, so "the handle is closed on every path" is a statement about
that log.

Modules, one per file:

| module | file | models |
|---|---|---|
| Wrappers | wrappers.dfy | `Option` and `Result` |
| JsText | js_text.dfy | JavaScript white space, `\w`, `trim`, ASCII lower case, `String(n)` |
| Http | http.dfy | request bodies as `typeof` and truthiness see them; `response.ok` |
| Driver | driver.dfy | the database oracle, the driver's `Connection`, `String(err)` |
| Classifier | classifier.dfy | the first-keyword regular expression of the gateway |
| QueryRoute | query_route.dfy | `POST /api/query` |
| Catalog | catalog.dfy | SQLite `LIKE`, BINARY ordering, the two catalog statements |
| TablesRoute | tables_route.dfy | `GET /api/tables` |
| PreviewRoute | preview_route.dfy | `POST /api/table-preview` |
| Csv | csv.dfy | `exportToCSV`'s writer, and a reader that inverts it |
| Practice | practice.dfy | the practice page: questions, checks, history, page state and handlers as functions |
| PracticeHandlers | practice_session.dfy | the practice page as an object whose methods are the handlers |
| Quiz | quiz.dfy | the quiz bank, grading, and the quiz state machine as a class |
| Seed | seed.dfy | `initDatabase`, the seed rows, their constraints, and the seeded database as the routes see it |
| Learning | learning.dfy | the lessons accordion and badge variants |

## Model

| member | source | states |
|---|---|---|
| QueryRoute.Post | app/api/query/route.ts:6-91 | The reply is the route's answer. A handle is opened exactly when the query is valid and the open succeeds. An opened handle's log starts with the open and the prepare of the query, and ends with exactly one close. A mutation is run once and a data query read once, never both, and only after a successful prepare. Column metadata is asked for only when the rows were read. |
| QueryRoute.ExecuteOn | app/api/query/route.ts:32-78 | Prepare, classify, then read or run through an open handle. The reply and the logged calls are as specified, and the handle stays open. |
| QueryRoute.ExecuteCallsShape | app/api/query/route.ts:33-71 | The statement work starts with the prepare. It runs a mutation once or reads a data query once, according to the classifier. It asks for metadata only when it reads, and never closes. |
| QueryRoute.StatusTaxonomy | app/api/query/route.ts:9-83 | Every reply has status 200, 400 or 500. 200 is a row set or a mutation outcome. 500 is an unreadable body or a failed open. 400 is a rejected request or an engine error after the open. |
| QueryRoute.InvalidQueryRefused | app/api/query/route.ts:12-18 | A missing, empty or non-string query is answered 400 "Query is required and must be a string", and nothing is opened. |
| QueryRoute.OpenFailureReported | app/api/query/route.ts:20-30 | A failed open is answered 500 "Failed to open database", with `String(err)` of the driver's error as the detail. |
| QueryRoute.PrepareErrorIsSqlError | app/api/query/route.ts:32-78 | A statement the engine cannot prepare is a 400 "SQL Error: …", whatever its first keyword. |
| QueryRoute.TypeFollowsClassifier | app/api/query/route.ts:36-70 | A successful reply has type "SELECT" exactly for a data query, and "DML/DDL" exactly for a mutation. |
| QueryRoute.RowSetReply | app/api/query/route.ts:40-59 | A data-query reply passes the engine's rows through in order, with `rowCount` equal to their number. Its columns come from the metadata. Only when the metadata throws do they come from the first row's keys, or are empty when there are no rows. |
| QueryRoute.MutationReply | app/api/query/route.ts:62-70 | A mutation reply reports the engine's `changes` and `lastInsertRowid` unchanged, with the fixed message. |
| QueryRoute.CloseFaultIgnored | app/api/query/route.ts:84-90 | A failure in `close()` never changes the reply. |
| QueryRoute.UnreadableBody | app/api/query/route.ts:79-83 | A body that cannot be parsed is answered 500 "Server Error: …". |
| Classifier.ClassifyIsRegex | app/api/query/route.ts:36 | The classifier answers "data query" if and only if the text matches the regular expression: some white space from the start, then one of the four keywords in any ASCII case, then a word boundary. |
| Classifier.MatchStartsAfterWhiteSpace | app/api/query/route.ts:36 | Any match of the expression starts its keyword exactly where the leading white space ends. |
| Classifier.WordCharAfterKeyword | app/api/query/route.ts:36 | A keyword followed by a letter, digit or underscore is not at a boundary. |
| Classifier.SelectionIsMutation | app/api/query/route.ts:36 | "selection x", "select1" and "pragma_x" are mutations. |
| Classifier.PunctuationIsBoundary | app/api/query/route.ts:36 | "SELECT*" is a data query. |
| Classifier.EndIsBoundary | app/api/query/route.ts:36 | "Explain" is a data query: the end of the text is a boundary. |
| Classifier.WhiteSpaceSkipped | app/api/query/route.ts:36 | Leading spaces, a line feed and a tab are skipped before "With". |
| Classifier.OtherStatementsAreMutations | app/api/query/route.ts:36 | "DROP TABLE employees" and a query hidden behind a leading comment are mutations. |
| Catalog.SqlitePattern | app/api/tables/route.ts:31 | A name matches `LIKE 'sqlite_%'` if and only if it has at least seven characters and its first six are "sqlite" in any ASCII case. |
| Catalog.LikeLiteralPrefix | app/api/tables/route.ts:31 | A pattern that starts with a literal (no wildcards) matches exactly the texts that start with that literal, ignoring ASCII case, and whose rest matches the pattern's rest. |
| Catalog.LikePercent | app/api/tables/route.ts:31 | `%` matches every text. |
| Catalog.SqlitePatternExamples | app/api/tables/route.ts:31 | The pattern hides "sqlite_sequence", "SQLite_stat1" and "sqlitex". It keeps "sqlite" and "students". |
| Catalog.UserTableCount | app/api/tables/route.ts:30-31 | Each name occurs as often as the catalog holds a 'table' entry with that name, and a name matching the pattern never occurs. |
| Catalog.UserTableNames | app/api/tables/route.ts:30-31 | The names of the entries of type 'table' that do not match the pattern, and only those. |
| Catalog.Insert | app/api/tables/route.ts:32 | Inserting a name adds exactly that name to the collection. |
| Catalog.InsertSorted | app/api/tables/route.ts:32 | Inserting into a sorted list keeps it sorted. |
| Catalog.SortNames | app/api/tables/route.ts:32 | `ORDER BY name` gives a list sorted in BINARY order that is a permutation of its input. |
| Catalog.LexLeTotal | app/api/tables/route.ts:32 | BINARY order compares any two names. |
| Catalog.LexLeAntisymmetric | app/api/tables/route.ts:32 | BINARY order puts two distinct names strictly apart. |
| Catalog.LexLeTransitive | app/api/tables/route.ts:32 | BINARY order is transitive. |
| Catalog.SortedUnique | app/api/tables/route.ts:32 | There is only one sorted arrangement of a collection of names, so the listing's order is determined. |
| Catalog.ListNamesMeaning | app/api/tables/route.ts:28-34 | The listing is sorted. It holds each user table as often as the catalog has a 'table' entry for it, and no internal name. A name is in it exactly when some entry of type 'table' carries it and does not match the pattern. |
| Catalog.ListedTablesExist | app/api/table-preview/route.ts:19-22 | Every listed name passes the preview's existence check. |
| Catalog.InternalTableFound | app/api/table-preview/route.ts:19-22 | The existence check does not hide internal tables: "sqlite_sequence" is not listed, but it is found. |
| TablesRoute.Get | app/api/tables/route.ts:7-57 | The reply is the route's answer. A handle is opened exactly when the file exists and the open succeeds. It is opened read-only with `fileMustExist`, queried once and closed. |
| TablesRoute.RowNamesOfNameRows | app/api/tables/route.ts:36 | Mapping the name rows to `r.name` gives back the names, in order and with their length. |
| TablesRoute.MissingFileNotInitialized | app/api/tables/route.ts:13-21 | A missing file is answered 200 with an empty `tables` and the "not initialized" message. |
| TablesRoute.ListingIsUserTables | app/api/tables/route.ts:28-38 | A successful listing holds exactly the user tables, in ascending order, each as often as the catalog has it. |
| TablesRoute.StatusTaxonomy | app/api/tables/route.ts:7-57 | Every reply is 200 or 500. It is 500 exactly when an existing file cannot be opened or read. |
| TablesRoute.CloseFaultIgnored | app/api/tables/route.ts:44-50 | A failure in `close()` never changes the reply. |
| PreviewRoute.Post | app/api/table-preview/route.ts:5-52 | The reply is the route's answer. A handle is opened exactly for an accepted name and a successful open; its log starts with the open and the existence check. The route calls `close()` exactly on the 404 path and after a successful read, and then as the last call. The log is given exactly on every path after the open. A fault in the check ends it there. A missing table logs open, check, get and close, and reads no rows. A found table then prepares `SELECT * FROM "name"`. It reads the rows only when the name has no double quote, and only after the check found the table. |
| PreviewRoute.FaultLeavesHandleOpen | app/api/table-preview/route.ts:16-51 | A fault in the existence check, or in reading the rows of an existing table (a driver fault, or a name holding a double quote), gives a 500 reply and leaves the handle open. |
| PreviewRoute.RowReadFault | app/api/table-preview/route.ts:31-34 | When the existence check finds the table but reading its rows throws, the reply is 500 with the driver's message, and `close()` is never reached. |
| PreviewRoute.PreviewContents | app/api/table-preview/route.ts:32-46 | A 200 reply is a preview of the requested, existing table. It holds the table's first rows in order, counted: the whole table when it has at most twenty rows, and exactly twenty otherwise. Its columns are the first row's keys, or empty when there are no rows. |
| PreviewRoute.ExistingTable | app/api/table-preview/route.ts:19-46 | An existing table whose name has no double quote, on a database without faults (its rows included), is answered 200 with its first twenty rows. |
| PreviewRoute.StatusTaxonomy | app/api/table-preview/route.ts:5-52 | Every reply is 200, 400, 404 or 500. 400 is an object body whose name is missing, empty or not a string. 404 is exactly an accepted name with no table, on a handle that opens, reads and closes cleanly. |
| PreviewRoute.MissingTable | app/api/table-preview/route.ts:24-29 | A name with no table is answered 404 "Table 'X' does not exist". |
| PreviewRoute.ListedTableFound | app/api/table-preview/route.ts:19-29 | A name the listing shows is never answered 404. |
| Driver.Lookup | app/api/tables/route.ts:36 | `row[column]` is present exactly when the column is among the row's keys, and is that key's value. |
| Driver.Describe | app/api/query/route.ts:27 | `String(err)` is the name and the message joined by ": ". It is the message alone when the name is empty, and the name alone when only the message is empty. |
| Driver.Take | app/api/table-preview/route.ts:33 | `LIMIT n` keeps a prefix of exactly min(`n`, size) rows: a table of at most `n` rows whole, and exactly the first `n` rows of a longer one. |
| Driver.Connect | app/api/query/route.ts:24 | A new handle is returned exactly when the driver can open the file; otherwise its error is returned. |
| Driver.Connection.Prepare | app/api/query/route.ts:33 | `db.prepare` yields the oracle's statement and is logged. |
| Driver.Connection.All | app/api/query/route.ts:40 | `stmt.all()` yields the oracle's rows and is logged. |
| Driver.Connection.Columns | app/api/query/route.ts:45-46 | `stmt.columns()` yields the oracle's column names and is logged. |
| Driver.Connection.Run | app/api/query/route.ts:62 | `stmt.run()` yields the oracle's counts and is logged. |
| Driver.Connection.ReadCatalog | app/api/tables/route.ts:28-34 | A statement over `sqlite_master` reads the catalog, or fails with the read fault. |
| Driver.Connection.ReadTable | app/api/table-preview/route.ts:32-34 | A name holding a double quote is a syntax error raised by the prepare, and `.all()` is not logged. Otherwise `.all()` is logged after the prepare, and the first `limit` rows are read or the table-read fault is raised. That fault is separate from the catalog's. |
| Driver.Connection.Close | app/api/query/route.ts:84-90 | `db.close()` closes the handle, and reports its fault if any. |
| Http.Member | app/api/query/route.ts:12 | `body?.key` is missing for a `null` body. |
| JsText.Trim | app/practice/page.tsx:163 | `trim()` yields a text that is empty or neither starts nor ends with white space. |
| JsText.TrimMeaning | app/practice/page.tsx:163 | `trim()` removes white space, and only from the two ends. |
| JsText.TrimPadded | app/practice/page.tsx:235 | `trim()` removes exactly the white space around a text. |
| JsText.DigitsShape | app/practice/page.tsx:202 | The digits of a number form a non-empty decimal numeral that reads back as the number. |
| Csv.Escape | app/practice/page.tsx:261 | Doubling the quotes never shortens the text. It keeps the presence of quotes, commas and line feeds, and leaves a text without quotes unchanged. |
| Csv.Cells | app/practice/page.tsx:257-263 | A data line has one cell per column, whatever keys the row has. |
| Csv.Export | app/practice/page.tsx:250-265 | There is nothing to export exactly when there are no rows or zero rows. |
| Csv.QuotingRule | app/practice/page.tsx:262 | A field is quoted exactly when its text holds a comma, a quote or a line feed. A quoted field is the escaped text between two quotes. |
| Csv.UnquotedIsValue | app/practice/page.tsx:262 | An unquoted field is the value's text itself. |
| Csv.CarriageReturnNotQuoted | app/practice/page.tsx:262 | A carriage return alone does not cause quoting. |
| Csv.QuotedRoundTrip | app/practice/page.tsx:261-262 | Reading the inside of a quoted field, collapsing `""` to `"`, gives back the text and stops at the closing quote. |
| Csv.BareRoundTrip | app/practice/page.tsx:262 | An unquoted text without a comma or line feed reads back whole. |
| Csv.FieldRoundTrip | app/practice/page.tsx:259-262 | Reading any exported field gives back the value's text, and stops at the next separator. |
| Csv.RecordRoundTrip | app/practice/page.tsx:257-263 | Reading an exported line gives back its values, one field per value. |
| Csv.DocumentRoundTrip | app/practice/page.tsx:265 | Reading lines joined by line feeds gives back the records. |
| Csv.ExportRoundTrip | app/practice/page.tsx:256-265 | For at least one column and names that need no quoting (the header is written unescaped), reading an export back gives the header names, then one record per row, in row order, holding the row's values under the columns. |
| Practice.NextWraps | app/practice/page.tsx:327-328 | "Next" moves one question on, and from the last question to the first. |
| Practice.PrevWraps | app/practice/page.tsx:329-330 | "Previous" moves one question back, and from the first question to the last. |
| Practice.NavigationInverse | app/practice/page.tsx:327-331 | Both directions stay within the bank, and each undoes the other. |
| Practice.NextCycles | app/practice/page.tsx:328 | Five steps forward come back to the start, and no step stays put. |
| Practice.EqualIgnoringCaseMeaning | app/practice/page.tsx:235 | Comparing character by character, ignoring case, is comparing the lower-cased texts. |
| Practice.QuestionBankShape | app/practice/page.tsx:50-86 | The questions are numbered 1 to 5. Each example equals its expected SQL, starts with "S" and ends with ";", so `trim` leaves it unchanged. |
| Practice.ExampleIsCorrect | app/practice/page.tsx:55-84 | Each question's example is judged correct against its expected SQL. |
| Practice.PaddingAndCaseIgnored | app/practice/page.tsx:235 | The check ignores white space around the answer and the letter case of both texts. |
| Practice.NewHistoryShape | app/practice/page.tsx:217 | After a run, the history holds the query first, then the earlier entries in their order, at most ten in all. |
| Practice.TwoRuns | app/practice/page.tsx:217 | After two runs, the later query comes first, then the earlier one, then the eight most recent before them. |
| Practice.HistoryLabel | app/practice/page.tsx:675 | An entry is shown whole up to 80 characters. A longer entry shows its first 80 characters and an ellipsis. |
| Practice.GuardedQueryAccepted | app/practice/page.tsx:163-184 | A query that passes the page's guard also passes the gateway's validation, as its trimmed text. |
| Practice.InitialPageInvariant | app/practice/page.tsx:32-46 | The initial page is on an existing question, with an empty history. |
| Practice.ExecutedHistory | app/practice/page.tsx:162-231 | A run pushes its query onto the history exactly when it was sent and the reply arrived ok; otherwise the history is kept. |
| Practice.ExecutedKeepsInvariant | app/practice/page.tsx:162-231 | A run keeps the page on an existing question, with at most ten history entries. |
| Practice.NewHistoryRunnable | app/practice/page.tsx:163-166 | Pushing a query that passes the guard keeps every history entry runnable. |
| Practice.ExecutedKeepsHistoryRunnable | app/practice/page.tsx:162-231 | The history only records queries that passed the run guard. |
| Practice.RunGuards | app/practice/page.tsx:163-184 | A blank query only sets "Please enter a query", and nothing is sent. A query against a database known to be missing is not sent. A sent request carries the trimmed query. |
| Practice.RunOutcome | app/practice/page.tsx:174-230 | An ok reply is shown and the query goes first in the history. In question mode only, it is then evaluated. A failed run clears the result, keeps the history and shows the error. The query, mode, tables, preview and question are untouched. |
| Practice.ExampleRunJudgedCorrect | app/practice/page.tsx:222-238 | In question mode, running the filled-in example is judged correct once the reply arrives. |
| Practice.ClearedIdempotent | app/practice/page.tsx:241-254 | Clearing twice is clearing once, and afterwards there is nothing to export. |
| Practice.NavigateRoundTrip | app/practice/page.tsx:319-332 | One question forward and one back gives the same question with a cleared attempt. |
| Practice.PreviewOutcome | app/practice/page.tsx:278-317 | The selection follows the choice, and "none" drops the preview. A sent request shows the preview or the failure. Only a failure changes the suggestions. |
| Practice.ExportOutcome | app/practice/page.tsx:250-276 | A file is offered exactly when the result has rows. It is the CSV document of the result, and the status says which happened. |
| Practice.MissingFileLooksInitialized | app/practice/page.tsx:125-150 | A missing database file still marks the database initialized, because the listing's ok reply carries an empty `tables` array, which is truthy. |
| Practice.GatewaySuccessShapes | app/practice/page.tsx:188-214 | Every ok reply of the gateway is one of the two result shapes the page dispatches on. |
| PracticeHandlers.PracticeSession.constructor | app/practice/page.tsx:32-46 | The session starts as the initial page over the five questions. |
| PracticeHandlers.PracticeSession.SetQuery | app/practice/page.tsx:416 | Editing sets the query and nothing else. |
| PracticeHandlers.PracticeSession.SelectMode | app/practice/page.tsx:393-400 | The mode tabs set the mode and nothing else. |
| PracticeHandlers.PracticeSession.LoadTables | app/practice/page.tsx:125-150 | The page becomes the state of the tables-loaded transition, and the invariant is kept. |
| PracticeHandlers.PracticeSession.ExecuteQuery | app/practice/page.tsx:162-231 | The request sent is the page's, after the guards. The page becomes the state of the run transition, and the invariant is kept. |
| PracticeHandlers.PracticeSession.Refuse | app/practice/page.tsx:163-172 | The guard messages. |
| PracticeHandlers.PracticeSession.Send | app/practice/page.tsx:174-230 | The `try` and `catch` of a sent run. |
| PracticeHandlers.PracticeSession.ShowFailure | app/practice/page.tsx:225-230 | A failed run's messages, with the result cleared. |
| PracticeHandlers.PracticeSession.ShowReply | app/practice/page.tsx:192-224 | An ok reply is shown, then evaluated in question mode. |
| PracticeHandlers.PracticeSession.Display | app/practice/page.tsx:192-218 | The result and messages of an ok reply, and the new history. |
| PracticeHandlers.PracticeSession.EvaluateAnswer | app/practice/page.tsx:233-239 | The verdict on the current query against the current question. |
| PracticeHandlers.PracticeSession.ClearAll | app/practice/page.tsx:241-248 | The cleared page; the invariant is kept. |
| PracticeHandlers.PracticeSession.ExportToCsv | app/practice/page.tsx:250-276 | The offered file is the page's export, and the status says whether there was one. |
| PracticeHandlers.PracticeSession.PreviewTable | app/practice/page.tsx:278-317 | A request is sent exactly when the choice is not "none" and the database is not known to be missing. The page becomes the state of the preview transition. |
| PracticeHandlers.PracticeSession.ShowPreview | app/practice/page.tsx:301-316 | The preview or the failure of a sent request. |
| PracticeHandlers.PracticeSession.NavigateQuestion | app/practice/page.tsx:319-332 | The attempt is cleared and the question moves cyclically; the invariant is kept. |
| PracticeHandlers.PracticeSession.ResetAttempt | app/practice/page.tsx:320-325 | The cleared attempt. |
| PracticeHandlers.PracticeSession.UseExample | app/practice/page.tsx:334-336 | The query becomes the current question's example. |
| PracticeHandlers.PracticeSession.ShowExpected | app/practice/page.tsx:338-341 | The query becomes the expected SQL, with the "Expected SQL filled" status. |
| Quiz.BankShape | app/quiz/page.tsx:73-567 | Exactly the six lesson ids have a bank. Every bank has eight questions numbered from 1, each with four options and a correct answer among them. |
| Quiz.CountMark | app/quiz/page.tsx:592-594 | Marking an unanswered question adds one to the count of answered questions; marking an answered one adds nothing. |
| Quiz.CountAllFalse | app/quiz/page.tsx:572 | A fresh `answered` array counts no answers. |
| Quiz.PercentageRounds | app/quiz/page.tsx:683 | The percentage is 100 × score / total rounded to the nearest whole number, halves up. |
| Quiz.PercentageBounds | app/quiz/page.tsx:683 | The percentage lies between 0 and 100; no score gives 0 and a full score gives 100. |
| Quiz.AtLeast | app/quiz/page.tsx:683 | A percentage of at least k means a score of at least k − 1/2 per cent. |
| Quiz.GradeThresholds | app/quiz/page.tsx:699-703 | "Excellent" exactly when the score is at least 79.5 per cent of the total; "Keep practicing" exactly when it is below 59.5 per cent. |
| Quiz.EightQuestionGrades | app/quiz/page.tsx:683-703 | Out of eight, 7 or 8 is "Excellent", 5 or 6 "Good job", and 4 or fewer "Keep practicing". |
| Quiz.QuizSession.constructor | app/quiz/page.tsx:26-32 | The quiz starts with no lesson, nothing answered and nothing shown. |
| Quiz.QuizSession.SelectLesson | app/quiz/page.tsx:569-583 | A lesson starts at question 0 with score 0 and one unanswered entry per question. |
| Quiz.QuizSession.AnswerSelect | app/quiz/page.tsx:585-601 | Without a lesson, or on an answered question, nothing changes. Otherwise that question alone is marked answered, and the score rises by one exactly for the correct option. The score never exceeds the answered count. |
| Quiz.QuizSession.NextQuestion | app/quiz/page.tsx:603-613 | Below the last question it moves on and clears the choice. At the last question it completes the quiz. The index stays on a question. |
| Quiz.QuizSession.RestartQuiz | app/quiz/page.tsx:615-623 | Back to the lesson list with everything reset. |
| Quiz.QuizSession.Retry | app/quiz/page.tsx:715-722 | The same lesson again from question 0, with score 0 and every entry unanswered. |
| Seed.InitDatabase | lib/init-db.ts:6-157 | An existing file is removed first. The handle is closed exactly when it was opened, and the first failure is rethrown unless `close()` fails. Without a failure, the tables hold exactly the seed rows, whatever was there before, and satisfy every constraint. |
| Seed.InsertDepartments | lib/init-db.ts:72-80 | The rows are all accepted exactly when they repeat neither an id nor a name. The table then holds them in order. |
| Seed.InsertEmployees | lib/init-db.ts:83-106 | The rows are all accepted exactly when their ids are distinct and every department exists. The table then holds them in order. |
| Seed.InsertProjects | lib/init-db.ts:109-117 | The rows are all accepted exactly when their ids are distinct. |
| Seed.InsertAssignments | lib/init-db.ts:120-133 | The rows are all accepted exactly when their ids are distinct and every employee and project exists. |
| Seed.InsertStudents | lib/init-db.ts:136-146 | The rows are all accepted exactly when their ids are distinct. |
| Seed.AdmittedDepartment | lib/init-db.ts:27-30 | An insert the engine accepts keeps every constraint. |
| Seed.AdmittedEmployee | lib/init-db.ts:32-42 | An insert the engine accepts keeps every constraint. |
| Seed.AdmittedProject | lib/init-db.ts:44-50 | An insert the engine accepts keeps every constraint. |
| Seed.AdmittedAssignment | lib/init-db.ts:52-60 | An insert the engine accepts keeps every constraint. |
| Seed.AdmittedStudent | lib/init-db.ts:62-68 | An insert the engine accepts keeps every constraint. |
| Seed.DepartmentsSeedAdmissible | lib/init-db.ts:73-80 | The five departments have distinct ids and distinct names. |
| Seed.EmployeesSeedAdmissible | lib/init-db.ts:84-106 | The twenty employees have distinct ids, and each names an existing department. |
| Seed.ProjectsSeedAdmissible | lib/init-db.ts:110-117 | The five projects have distinct ids. |
| Seed.AssignmentsSeedAdmissible | lib/init-db.ts:121-133 | The ten assignments have distinct ids, and each names an existing employee and project. |
| Seed.StudentsSeedAdmissible | lib/init-db.ts:137-146 | The seven students have distinct ids. |
| Seed.DistinctByInsertion | lib/init-db.ts:28 | A column admits a sequence of one-at-a-time inserts without repeats exactly when no value occurs twice. |
| Seed.SeedCatalogListing | lib/init-db.ts:27-68 | The seeded catalog lists departments, employee_projects, employees, projects and students, in that order. |
| Seed.SeedListingSorted | lib/init-db.ts:27-68 | That order is ascending. |
| Seed.SeededListing | lib/init-db.ts:27-68 | After seeding, the listing answers 200 with the five tables in ascending order. |
| Seed.SeedRowidOrder | lib/init-db.ts:73-146 | The seed rows of each table are inserted with increasing ids, so their insertion order is the rowid order a plain `SELECT *` scans. |
| Seed.SeededPreview | lib/init-db.ts:73-146 | On a seeded database without faults, whatever the five tables hold, every listed table previews with status 200. The reply holds its first twenty rows, in the order the model's tables list them, with the table's declared columns, or no columns when it is empty. |
| Seed.SeededPreviewComplete | lib/init-db.ts:73-146 | The tables hold 5, 20, 5, 10 and 7 rows, so each previews in full. |
| Seed.RowColumns | lib/init-db.ts:72-137 | Every seeded row has its table's declared columns, in order. |
| Seed.DepartmentNotNull | lib/init-db.ts:29 | `dept_name` reads back as the text inserted. |
| Seed.EmployeeNotNull | lib/init-db.ts:34-36 | `name` and `salary` read back as the values inserted, of their declared types. |
| Seed.ProjectNotNull | lib/init-db.ts:46 | `title` reads back as the text inserted. |
| Seed.StudentNotNull | lib/init-db.ts:64 | `name` reads back as the text inserted. |
| Learning.ToggleMeaning | app/learning/page.tsx:245-249 | A click keeps the list's length, order, ids and levels. It negates the open state of exactly the lessons with that id, and changes no other lesson. |
| Learning.ToggleChangesOne | app/learning/page.tsx:245-249 | With unique ids, a click on an existing id changes exactly one lesson, and an unknown id changes none. |
| Learning.ToggleTwice | app/learning/page.tsx:247 | Two clicks on the same lesson restore every card's open state, and keep the ids. |
| Learning.InitialLessons | app/learning/page.tsx:24-243 | The initial ids are 1 to 17 and unique, and only the first lesson is open. |
| Learning.ClickOnInitial | app/learning/page.tsx:245-249 | A click on an initial lesson opens it when closed and closes it when open, and leaves the other sixteen unchanged. |
| Learning.LevelVariant | app/learning/page.tsx:269-279 | "Intermediate" and "Summary" map to secondary, "Advanced" to destructive, "Design" and "Security" to outline, and anything else to default. |
| Learning.InitialVariants | app/learning/page.tsx:269-279 | The mixed level "Beginner → Intermediate" of lesson 4 falls back to default, like a beginner lesson. The design and security lessons are outlined. |

## Left out

- The SQL engine and the better-sqlite3 driver are an oracle. SQL semantics beyond the two fixed catalog statements and the preview's `SELECT *` are not modelled. A statement's rows, metadata, counts and errors are whatever the oracle fixes.
- HTTP and the framework, `request.json()` and `fetch` are a parsed request value or a fault, and a status-plus-body reply value. `response.json()` on the page is assumed to give back the body the route built.
- The filesystem: `existsSync`, `unlinkSync` and the path calls are a `fileExists` flag.
- Browser APIs: speech recognition and `startVoiceInput`, `localStorage`, `Blob` and the download link, the clipboard and `copyToClipboard`. Restoring the history from `localStorage` on mount is not modelled either; the model starts from an empty history.
- Rendering: JSX, styling, the question texts and hints, the quiz wording, titles and lesson badge colours, and the lesson texts.
- Practice.PaddingAndCaseIgnored: `toLowerCase` is modelled for ASCII letters only. Full Unicode lower-casing, which can change a text's length, is not modelled.
- Practice.HistoryLabel: lengths are counted in characters, not in UTF-16 code units.
- Quiz.PercentageRounds: `Math.round` on the float `score / total * 100` is modelled as exact rational rounding. Floating-point error is not modelled, and it does not change any result for eight questions.
- `getProgress` (app/quiz/page.tsx:625-628) is a floating-point progress value for the progress bar; it is not modelled.
- Quiz.QuizSession.SelectLesson: the `useEffect` that fills `answered` is folded into the click that selects the lesson. The render between the two is not modelled.
- Driver.Lookup and Csv.Cells: a row's keys are taken in column order. How `Object.keys` orders integer-like column names, and duplicate column names, are not modelled.
- Driver values are NULL, integers and text. REAL and BLOB columns are not modelled.
- Csv.CellText and JsText.IntText: integers are written as exact decimals. better-sqlite3 hands INTEGER columns to JavaScript as doubles. So `String(value)` of an integer beyond 2^53 prints the double's shortest digits instead (2^60 is written as "1152921504606847000"), and the modelled CSV cell differs for such values.
- Classifier.ClassifyIsRegex: SQL comments and other SQLite white space before the keyword are not treated specially, just as the regular expression treats them.
- Driver.Connection.ReadTable: a name holding a double quote is modelled as always failing. In SQLite, some such names happen to parse as a different statement.
- The outer `catch` of the listing route (app/api/tables/route.ts:51-56) is not modelled: `path.resolve` and `existsSync` do not throw.
- `app/api/init-db/route.ts` is not part of this model: it names `initDatabase` without importing or calling it, so it does no seeding and always reports success.
- Seed.InitDatabase: the insert faults modelled are the constraint checks. Other engine failures during an insert, the PRAGMA and DROP statements, and the console logs are not modelled.
- Concurrency between requests, and file locking, are not modelled: each request is independent.
- The intermediate statuses "Running query...", "Loading tables..." and "Loading X..." are set in the model but overwritten before the handler returns, just as on the page.

## Findings

None: no contract showed the source to be wrong. Behaviour that looks unintended is stated as written:

- the `sqlite_` listing filter also hides names like "sqlitex" (Catalog.SqlitePatternExamples);
- a missing database file still marks the practice page initialized (Practice.MissingFileLooksInitialized);
- the preview route leaves the handle open on its 500 paths (PreviewRoute.FaultLeavesHandleOpen);
- any statement other than the four keywords is run (Classifier.OtherStatementsAreMutations).
