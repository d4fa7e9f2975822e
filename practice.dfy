/**
  The practice page: the question cycle, the answer check, the bounded
  query history, and the page state that the handlers update in response to
  the three routes.
 */
module Practice {
  import opened Wrappers
  import opened JsText
  import opened Http
  import opened Driver
  import Csv
  import QueryRoute
  import TablesRoute
  import PreviewRoute

  datatype Question = Question(id: nat, example: string, expectedSql: string)

  /** The five practice questions (app/practice/page.tsx, lines 50-86);
      the wording of the question texts and hints is not modelled. Each SQL
      text is written as its first keyword and the rest, which keeps its first
      character within easy reach of the verifier. */
  const Questions: seq<Question> := [
    Question(1, "SELECT " + "* FROM employees WHERE salary > 60000;",
                "SELECT " + "* FROM employees WHERE salary > 60000;"),
    Question(2, "SELECT " + "dept_id, AVG(salary) as avg_salary FROM employees GROUP BY dept_id;",
                "SELECT " + "dept_id, AVG(salary) as avg_salary FROM employees GROUP BY dept_id;"),
    Question(3, "SELECT " + "name, salary FROM employees ORDER BY salary DESC LIMIT 5;",
                "SELECT " + "name, salary FROM employees ORDER BY salary DESC LIMIT 5;"),
    Question(4, "SELECT " + "e.name FROM employees e JOIN departments d ON e.dept_id = d.dept_id WHERE d.dept_name = 'Marketing';",
                "SELECT " + "e.name FROM employees e JOIN departments d ON e.dept_id = d.dept_id WHERE d.dept_name = 'Marketing';"),
    Question(5, "SELECT " + "d.dept_name, COUNT(e.emp_id) as employee_count FROM departments d LEFT JOIN employees e ON d.dept_id = e.dept_id GROUP BY d.dept_name;",
                "SELECT " + "d.dept_name, COUNT(e.emp_id) as employee_count FROM departments d LEFT JOIN employees e ON d.dept_id = e.dept_id GROUP BY d.dept_name;")
  ]

  // ---------------------------------------------------------------------------
  // Question cycling

  /** The question after `i` in a bank of `n`, wrapping round to the first. */
  function Next(i: nat, n: nat): nat
    requires n > 0
  {
    (i + 1) % n
  }

  /** The question before `i` in a bank of `n`, wrapping round to the last. */
  function Prev(i: nat, n: nat): nat
    requires n > 0
  {
    (i - 1 + n) % n
  }

  lemma ModSmall(a: int, n: int)
    requires 0 <= a < n
    ensures a % n == a
  {
  }

  lemma ModWrap(a: int, n: int)
    requires 0 <= a < n
    ensures (a + n) % n == a
  {
  }

  /** Forward is one step on, and from the last question back to the first. */
  lemma NextWraps(i: nat, n: nat)
    requires i < n
    ensures Next(i, n) == if i + 1 < n then i + 1 else 0
  {
    if i + 1 < n {
      ModSmall(i + 1, n);
    }
  }

  /** Back is one step back, and from the first question on to the last. */
  lemma PrevWraps(i: nat, n: nat)
    requires i < n
    ensures Prev(i, n) == if i == 0 then n - 1 else i - 1
  {
    if i == 0 {
      ModSmall(n - 1, n);
    } else {
      ModWrap(i - 1, n);
    }
  }

  /** Both directions stay on a question, and each undoes the other. */
  lemma NavigationInverse(i: nat, n: nat)
    requires i < n
    ensures Next(i, n) < n && Prev(i, n) < n
    ensures Prev(Next(i, n), n) == i && Next(Prev(i, n), n) == i
  {
    NextWraps(i, n);
    PrevWraps(i, n);
    NextWraps(Prev(i, n), n);
    PrevWraps(Next(i, n), n);
  }

  /** Going forward through all five questions comes back to the start, and
      no step stays put. */
  lemma NextCycles(i: nat)
    requires i < |Questions|
    ensures var n := |Questions|; Next(Next(Next(Next(Next(i, n), n), n), n), n) == i
    ensures Next(i, |Questions|) != i
  {
  }

  // ---------------------------------------------------------------------------
  // Answer check

  /** `query.trim().toLowerCase() === expectedSql.toLowerCase()`, compared
      character by character (see `EqualIgnoringCaseMeaning`). */
  predicate IsCorrect(query: string, expected: string) {
    EqualIgnoringCase(Trim(query), expected)
  }

  predicate EqualIgnoringCase(a: string, b: string) {
    |a| == |b| && forall i :: 0 <= i < |a| ==> AsciiLower(a[i]) == AsciiLower(b[i])
  }

  /** Comparing character by character is comparing the lower-cased texts. */
  lemma EqualIgnoringCaseMeaning(a: string, b: string)
    ensures EqualIgnoringCase(a, b) <==> LowerAscii(a) == LowerAscii(b)
  {
    if LowerAscii(a) == LowerAscii(b) {
      forall i | 0 <= i < |a| ensures AsciiLower(a[i]) == AsciiLower(b[i]) {
        assert LowerAscii(a)[i] == LowerAscii(b)[i];
      }
    }
  }

  const CorrectText := "Correct! Your query matches the expected solution."
  const WrongText := "Not quite right. Compare your query with the expected solution."

  function EvaluationText(correct: bool): string {
    if correct then CorrectText else WrongText
  }

  /** Each example is its question's expected solution, and starts and ends
      with a character that is not white space. */
  lemma QuestionBankShape(i: nat)
    requires i < |Questions|
    ensures Questions[i].id == i + 1
    ensures Questions[i].example == Questions[i].expectedSql
    ensures |Questions[i].example| > 0
    ensures Questions[i].example[0] == 'S'
    ensures Questions[i].example[|Questions[i].example| - 1] == ';'
  {
    var e := Questions[i].example;
    if i == 0 {
      assert e[0] == 'S' && e[|e| - 1] == ';';
    } else if i == 1 {
      assert e[0] == 'S' && e[|e| - 1] == ';';
    } else if i == 2 {
      assert e[0] == 'S' && e[|e| - 1] == ';';
    } else if i == 3 {
      assert e[0] == 'S' && e[|e| - 1] == ';';
    } else {
      assert e[0] == 'S' && e[|e| - 1] == ';';
    }
  }

  /** Filling in the example and evaluating it is always judged correct. */
  lemma ExampleIsCorrect(i: nat)
    requires i < |Questions|
    ensures IsCorrect(Questions[i].example, Questions[i].expectedSql)
  {
    QuestionBankShape(i);
    TrimOfTrimmed(Questions[i].example);
  }

  /** The check ignores white space around the answer and the ASCII letter
      case of both texts. */
  lemma PaddingAndCaseIgnored(before: string, answer: string, after: string, expected: string)
    requires AllWhiteSpace(before) && AllWhiteSpace(after)
    requires answer != [] && !IsWhiteSpace(answer[0]) && !IsWhiteSpace(answer[|answer| - 1])
    requires LowerAscii(answer) == LowerAscii(expected)
    ensures IsCorrect(before + answer + after, expected)
  {
    TrimPadded(before, answer, after);
    EqualIgnoringCaseMeaning(answer, expected);
  }

  // ---------------------------------------------------------------------------
  // Messages the page shows

  const RowsAffected := " rows affected"
  const RowsFrom := " rows from "
  const RowsReturned := " rows returned"
  const SyntaxHint := "Check your SQL syntax and try again."
  const MutationDone := "DML/DDL operation executed successfully."
  const TablesReady := "Database is ready. You can start running queries."
  const NotInitializedStatus := "Database not initialized"
  const InitializeFirst := "Database not initialized. Please initialize first."
  const QueryErrored := "Error executing query"
  const ExpectedFilled := "Expected SQL filled"
  const Exported := "Exported to CSV"
  const PreviewFailed := "Failed to load table preview"
  const TablesFailed := "Failed to load tables. Make sure the database is initialized."
  const LoadedPrefix := "Loaded "
  const LoadingPrefix := "Loading "
  const LoadingTables := "Loading tables..."
  const NoIssues := "No issues detected."
  const NoQueryYet := "No query yet."
  const NothingToExport := "No results to export"
  const NoSuggestions := "No suggestions."
  const QueryRequired := "Please enter a query"
  const RunBlocked := "Please initialize the database first before running queries."
  const OperationPrefix := "Operation completed - "
  const QueryPrefix := "Query completed - "
  const RowsExecuted := "Query executed successfully."
  const QueryFailed := "Query failed"
  const Running := "Running query..."

  // ---------------------------------------------------------------------------
  // History

  /** `[query, ...history.slice(0, 9)]`. */
  function NewHistory(query: string, history: seq<string>): seq<string> {
    [query] + history[..if |history| < 9 then |history| else 9]
  }

  /** The newest query comes first, at most ten are kept, and the earlier ones
      follow in their original order. */
  lemma NewHistoryShape(query: string, history: seq<string>)
    ensures var h := NewHistory(query, history);
      && |h| == (if |history| < 9 then |history| + 1 else 10)
      && h[0] == query
      && h[1..] == history[..|h| - 1]
  {
  }

  /** Two runs in a row: the later query first, then the earlier one, then the
      eight most recent before them. */
  lemma TwoRuns(q1: string, q2: string, history: seq<string>)
    ensures var h := NewHistory(q2, NewHistory(q1, history));
      && h[..2] == [q2, q1]
      && h[2..] == history[..if |history| < 8 then |history| else 8]
  {
  }

  /** A history entry as the page shows it: the first 80 characters, and an
      ellipsis when something was cut off. */
  function HistoryLabel(item: string): (shown: string)
    ensures |item| <= 80 ==> shown == item
    ensures |item| > 80 ==> shown == item[..80] + "..." && |shown| == 83
  {
    item[..if |item| < 80 then |item| else 80] + (if |item| > 80 then "..." else "")
  }

  // ---------------------------------------------------------------------------
  // The run guard

  /** The request body `executeQuery` sends. */
  function QueryRequest(query: string): Result<Json, Fault> {
    Success(Value(map["query" := Str(Trim(query))]))
  }

  /** A query that passes the page's guard also passes the gateway's
      validation: the page never sends a request the gateway refuses as empty. */
  lemma GuardedQueryAccepted(query: string)
    requires Trim(query) != []
    ensures QueryRoute.Accepted(QueryRequest(query))
    ensures QueryRoute.QueryText(QueryRequest(query)) == Trim(query)
  {
  }

  // ---------------------------------------------------------------------------
  // Page state

  datatype Mode = Direct | QuestionMode

  /** The `QueryResult` record that the page keeps: each field may be absent. */
  datatype ResultView = ResultView(
    columns: Option<seq<string>>, rows: Option<seq<Row>>, rowCount: Option<int>, kind: Option<string>,
    message: Option<string>, changes: Option<int>, lastInsertRowid: Option<int>)

  const Empty := ResultView(None, None, None, None, None, None, None)

  /** The page counts a reply as successful when it arrived and `response.ok`. */
  predicate QueryDelivered(response: Result<QueryRoute.Reply, Fault>) {
    response.Success? && IsOk(response.value.status)
  }

  predicate TablesDelivered(response: Result<TablesRoute.Reply, Fault>) {
    response.Success? && IsOk(response.value.status)
  }

  predicate PreviewDelivered(response: Result<PreviewRoute.Reply, Fault>) {
    response.Success? && IsOk(response.value.status)
  }

  /** The result record built from a successful gateway reply. */
  function QueryView(b: QueryRoute.Body): ResultView {
    match b
    case RowSet(columns, rows, rowCount) => ResultView(Some(columns), Some(rows), Some(rowCount), Some("SELECT"), None, None, None)
    case MutationOutcome(message, changes, id) => ResultView(None, None, None, Some("DML/DDL"), Some(message), Some(changes), Some(id))
    case _ => Empty
  }

  function QueryExplanation(b: QueryRoute.Body): string {
    if b.RowSet? then RowsExecuted else MutationDone
  }

  function QueryStatus(b: QueryRoute.Body): string {
    if b.RowSet? then QueryPrefix + IntText(b.rowCount) + RowsReturned
    else OperationPrefix + IntText(if b.MutationOutcome? then b.changes else 0) + RowsAffected
  }

  /** `new Error(data.error || fallback).message`. */
  function Thrown(error: Option<string>, fallback: string): string {
    if error.Some? && error.value != "" then error.value else fallback
  }

  /** What `error.message || SyntaxHint` shows after a failed run. */
  function QueryFailureText(response: Result<QueryRoute.Reply, Fault>): string {
    var m := match response
      case Failure(f) => f.message
      case Success(r) => Thrown(r.body.ErrorField(), QueryFailed);
    if m != "" then m else SyntaxHint
  }

  function ErrorOfPreview(b: PreviewRoute.Body): Option<string> {
    if b.Error? then Some(b.error) else None
  }

  /** The preview record: the columns and rows of the reply, if it has them. */
  function PreviewView(b: PreviewRoute.Body): ResultView {
    if b.Preview? then ResultView(Some(b.columns), Some(b.rows), None, None, None, None, None) else Empty
  }

  /** `Loaded ${data.rowCount} rows from ${tableName}`; a reply without a row
      count shows "undefined". */
  function PreviewStatus(b: PreviewRoute.Body, tableName: string): string {
    LoadedPrefix + (if b.Preview? then IntText(b.rowCount) else "undefined") + RowsFrom + tableName
  }

  /** The `error.message` that a failed preview shows: the message of the
      fault, or of the error thrown for a reply that was not ok. */
  function PreviewFailureText(response: Result<PreviewRoute.Reply, Fault>): string {
    match response
    case Failure(f) => f.message
    case Success(r) => Thrown(ErrorOfPreview(r.body), PreviewFailed)
  }

  function NotInitializedHint(initialized: Option<bool>): string {
    if initialized == Some(true) then NoSuggestions else InitializeFirst
  }

  /** Everything the page keeps in `useState`, as one value. */
  datatype Page = Page(
    mode: Mode, query: string, status: string, explanation: string, suggestions: string,
    result: Option<ResultView>, tables: seq<string>, selectedTable: string,
    tablePreview: Option<ResultView>, history: seq<string>, currentQuestion: nat,
    showEvaluation: bool, evaluation: string, dbInitialized: Option<bool>)

  /** The initial state of the page (app/practice/page.tsx, lines 32-46). */
  const InitialPage := Page(Direct, "", "", NoQueryYet, NoSuggestions, None, [], "none", None, [], 0, false, "", None)

  /** What every handler keeps true of the page with a bank of `n` questions:
      the current question exists and the history holds at most ten entries. */
  predicate Invariant(p: Page, n: nat) {
    p.currentQuestion < n && |p.history| <= 10
  }

  /** Every entry is a query that passes the run guard. */
  predicate AllRunnable(h: seq<string>) {
    forall i :: 0 <= i < |h| ==> Trim(h[i]) != []
  }

  /** Every history entry is a query that passed the run guard. */
  predicate HistoryRunnable(p: Page) {
    AllRunnable(p.history)
  }

  // ---------------------------------------------------------------------------
  // The handlers, as changes of the page state

  /** `loadTables`: "Loading tables..." while the request runs,
      then an empty status. The listing route always answers with a `tables`
      array, and an empty array is truthy, so an ok reply always marks the
      database as initialized. */
  function TablesLoaded(p: Page, response: Result<TablesRoute.Reply, Fault>): Page {
    if !TablesDelivered(response) then
      p.(status := "", dbInitialized := Some(false), suggestions := TablesFailed)
    else if response.value.body.Listing? then
      p.(status := "", tables := response.value.body.tables, dbInitialized := Some(true), suggestions := TablesReady)
    else
      p.(status := "")
  }

  /** `evaluateAnswer`: the verdict on the current query. */
  function Evaluated(p: Page, expected: string): Page {
    p.(evaluation := EvaluationText(IsCorrect(p.query, expected)), showEvaluation := true)
  }

  /** The part of `executeQuery` after an ok reply: show the result, push the
      query onto the history and, in question mode, evaluate it. */
  function Shown(p: Page, b: QueryRoute.Body, expected: string): Page {
    var q := Displayed(p, b);
    if q.mode == QuestionMode then Evaluated(q, expected) else q
  }

  /** The result, messages and history an ok reply shows. */
  function Displayed(p: Page, b: QueryRoute.Body): Page {
    p.(result := Some(QueryView(b)), explanation := QueryExplanation(b), suggestions := NoIssues,
       status := QueryStatus(b), history := NewHistory(p.query, p.history))
  }

  /** The `catch` of `executeQuery`: the reply did not arrive, or was not ok. */
  function Failed(p: Page, response: Result<QueryRoute.Reply, Fault>): Page {
    p.(result := None, status := QueryFailed, explanation := QueryErrored, suggestions := QueryFailureText(response))
  }

  /** The `try` block of `executeQuery` once the request is sent (the
      intermediate "Running query..." status and cleared result are
      overwritten before the page renders again). */
  function Answered(p: Page, response: Result<QueryRoute.Reply, Fault>, expected: string): Page {
    if QueryDelivered(response) then Shown(p, response.value.body, expected) else Failed(p, response)
  }

  /** The request `executeQuery` sends, if its guards let the query through:
      the query must not be blank, and the database not known to be missing. */
  function Sent(p: Page): Option<Result<Json, Fault>> {
    if Trim(p.query) == [] || p.dbInitialized == Some(false) then None else Some(QueryRequest(p.query))
  }

  /** What the guards of `executeQuery` show when they stop a run. */
  function Refused(p: Page): Page {
    if Trim(p.query) == [] then p.(status := QueryRequired)
    else p.(status := NotInitializedStatus, suggestions := RunBlocked)
  }

  /** `executeQuery`: the two guards, then the request. */
  function Executed(p: Page, response: Result<QueryRoute.Reply, Fault>, expected: string): Page {
    if Sent(p).None? then Refused(p) else Answered(p, response, expected)
  }

  /** `clearAll`. */
  function Cleared(p: Page): Page {
    p.(query := "", result := None, explanation := NoQueryYet, suggestions := NotInitializedHint(p.dbInitialized),
       status := "", showEvaluation := false)
  }

  /** The file `exportToCSV` offers for download: nothing without a result
      or without rows. */
  function Download(p: Page): Option<string> {
    if p.result.None? then None else Csv.Export(p.result.value.columns, p.result.value.rows)
  }

  /** `exportToCSV`. */
  function ExportedPage(p: Page): Page {
    p.(status := if Download(p).None? then NothingToExport else Exported)
  }

  /** Whether `previewTable` sends a request. */
  predicate PreviewRequested(p: Page, tableName: string) {
    tableName != "none" && p.dbInitialized != Some(false)
  }

  /** The part of `previewTable` after the request: show the rows, or the failure. */
  function PreviewShown(p: Page, tableName: string, response: Result<PreviewRoute.Reply, Fault>): Page {
    if PreviewDelivered(response) then
      p.(tablePreview := Some(PreviewView(response.value.body)), status := PreviewStatus(response.value.body, tableName))
    else
      p.(tablePreview := None, status := PreviewFailed, suggestions := PreviewFailureText(response))
  }

  /** `previewTable`: select the table, and preview it
      unless the choice is "none" or the database is known to be missing. */
  function Previewed(p: Page, tableName: string, response: Result<PreviewRoute.Reply, Fault>): Page {
    var q := p.(selectedTable := tableName);
    if tableName == "none" then q.(tablePreview := None)
    else if p.dbInitialized == Some(false) then q.(status := NotInitializedStatus)
    else PreviewShown(q, tableName, response)
  }

  /** The first part of `navigateQuestion`: clear the attempt. */
  function AttemptReset(p: Page): Page {
    p.(showEvaluation := false, evaluation := "", query := "", result := None, explanation := NoQueryYet,
       suggestions := NotInitializedHint(p.dbInitialized))
  }

  /** `navigateQuestion`: clear the attempt and move one question forward or
      back, cyclically, in a bank of `n`. */
  function Navigated(p: Page, forward: bool, n: nat): Page
    requires n > 0
  {
    AttemptReset(p).(currentQuestion := if forward then Next(p.currentQuestion, n) else Prev(p.currentQuestion, n))
  }

  // ---------------------------------------------------------------------------
  // What the handlers promise

  lemma InitialPageInvariant()
    ensures Invariant(InitialPage, |Questions|)
  {
  }

  /** A run pushes its query onto the history exactly when the request was
      sent and the reply was delivered. */
  lemma ExecutedHistory(p: Page, response: Result<QueryRoute.Reply, Fault>, expected: string)
    ensures Executed(p, response, expected).history ==
      if Sent(p).Some? && QueryDelivered(response) then NewHistory(p.query, p.history) else p.history
  {
    if Sent(p).Some? && QueryDelivered(response) {
      var q := Shown(p, response.value.body, expected);
      assert Executed(p, response, expected) == q;
      assert q.history == NewHistory(p.query, p.history);
    }
  }

  /** A run keeps the invariant: the history grows by one and is cut back
      to ten. */
  lemma ExecutedKeepsInvariant(p: Page, response: Result<QueryRoute.Reply, Fault>, expected: string, n: nat)
    requires Invariant(p, n)
    ensures Invariant(Executed(p, response, expected), n)
  {
    ExecutedHistory(p, response, expected);
    NewHistoryShape(p.query, p.history);
  }

  /** Pushing a query that passes the guard keeps every entry runnable. */
  lemma {:induction false} NewHistoryRunnable(query: string, history: seq<string>)
    requires Trim(query) != [] && AllRunnable(history)
    ensures AllRunnable(NewHistory(query, history))
  {
    var h := NewHistory(query, history);
    NewHistoryShape(query, history);
    forall i | 0 <= i < |h| ensures Trim(h[i]) != [] {
      if i > 0 {
        assert h[i] == history[i - 1];
      }
    }
  }

  /** The history only ever records a query that passed the guard. */
  lemma ExecutedKeepsHistoryRunnable(p: Page, response: Result<QueryRoute.Reply, Fault>, expected: string)
    requires HistoryRunnable(p)
    ensures HistoryRunnable(Executed(p, response, expected))
  {
    ExecutedHistory(p, response, expected);
    if Sent(p).Some? && QueryDelivered(response) {
      NewHistoryRunnable(p.query, p.history);
    }
  }

  /** A blank query changes nothing but the status, and is not sent; a query
      against a database known to be missing is not sent either. */
  lemma RunGuards(p: Page, response: Result<QueryRoute.Reply, Fault>, expected: string)
    ensures Trim(p.query) == [] ==> Sent(p) == None && Executed(p, response, expected) == p.(status := QueryRequired)
    ensures Trim(p.query) != [] && p.dbInitialized == Some(false) ==>
      Sent(p) == None && Executed(p, response, expected) == p.(status := NotInitializedStatus, suggestions := RunBlocked)
    ensures Sent(p).Some? ==> QueryRoute.Accepted(Sent(p).value) && QueryRoute.QueryText(Sent(p).value) == Trim(p.query)
  {
    if Sent(p).Some? {
      GuardedQueryAccepted(p.query);
    }
  }

  /** A delivered run shows the reply, puts the query first in the history
      and, in question mode only, shows the verdict on it; a failed run clears
      the result and keeps the history. Neither touches the query, the mode,
      the tables, the preview or the question. */
  lemma RunOutcome(p: Page, response: Result<QueryRoute.Reply, Fault>, expected: string)
    requires Sent(p).Some?
    ensures var r := Executed(p, response, expected);
      && r.query == p.query && r.mode == p.mode && r.tables == p.tables && r.tablePreview == p.tablePreview
      && r.currentQuestion == p.currentQuestion && r.dbInitialized == p.dbInitialized
      && (QueryDelivered(response) ==>
            && r.result == Some(QueryView(response.value.body)) && r.history[0] == p.query
            && r.history[1..] == p.history[..|r.history| - 1]
            && (r.showEvaluation, r.evaluation) ==
               (if p.mode == QuestionMode then (true, EvaluationText(IsCorrect(p.query, expected)))
                else (p.showEvaluation, p.evaluation)))
      && (!QueryDelivered(response) ==>
            r.result == None && r.history == p.history && r.status == QueryFailed &&
            r.suggestions == QueryFailureText(response))
  {
    NewHistoryShape(p.query, p.history);
  }

  /** In question mode, filling in the example and running it against an
      initialized database is judged correct once the reply arrives. */
  lemma ExampleRunJudgedCorrect(p: Page, response: Result<QueryRoute.Reply, Fault>)
    requires p.currentQuestion < |Questions| && p.mode == QuestionMode
    requires p.dbInitialized != Some(false) && QueryDelivered(response)
    ensures var e := Questions[p.currentQuestion];
      var r := Executed(p.(query := e.example), response, e.expectedSql);
      r.showEvaluation && r.evaluation == CorrectText
  {
    var e := Questions[p.currentQuestion];
    QuestionBankShape(p.currentQuestion);
    TrimOfTrimmed(e.example);
    ExampleIsCorrect(p.currentQuestion);
  }

  /** Clearing twice is clearing once, and nothing is left to export. */
  lemma ClearedIdempotent(p: Page)
    ensures Cleared(Cleared(p)) == Cleared(p)
    ensures Download(Cleared(p)) == None && ExportedPage(Cleared(p)).status == NothingToExport
  {
  }

  /** One question forward and one back returns to the same question with a
      cleared attempt. */
  lemma NavigateRoundTrip(p: Page, n: nat)
    requires p.currentQuestion < n
    ensures Navigated(Navigated(p, true, n), false, n) == Navigated(p, false, n).(currentQuestion := p.currentQuestion)
    ensures Navigated(Navigated(p, false, n), true, n) == Navigated(p, true, n).(currentQuestion := p.currentQuestion)
  {
    NavigationInverse(p.currentQuestion, n);
  }

  /** Choosing "none" drops the preview and sends nothing; any other table
      is previewed unless the database is known to be missing. Either way the
      selection follows the choice. */
  lemma PreviewOutcome(p: Page, tableName: string, response: Result<PreviewRoute.Reply, Fault>)
    ensures var r := Previewed(p, tableName, response);
      && r.selectedTable == tableName
      && (tableName == "none" ==> r == p.(selectedTable := tableName, tablePreview := None))
      && (PreviewRequested(p, tableName) && PreviewDelivered(response) ==>
            r.tablePreview == Some(PreviewView(response.value.body)) && r.suggestions == p.suggestions)
      && (PreviewRequested(p, tableName) && !PreviewDelivered(response) ==>
            r.tablePreview == None && r.status == PreviewFailed && r.suggestions == PreviewFailureText(response))
      && (!PreviewRequested(p, tableName) ==> r.suggestions == p.suggestions)
  {
  }

  /** The export offers the document of the current result exactly when the
      result has rows, and the status says which happened. */
  lemma ExportOutcome(p: Page)
    ensures Download(p).Some? <==> p.result.Some? && p.result.value.rows.Some? && p.result.value.rows.value != []
    ensures Download(p).Some? ==> Download(p).value == Csv.Document(p.result.value.columns, p.result.value.rows.value)
    ensures ExportedPage(p) == p.(status := if Download(p).Some? then Exported else NothingToExport)
  {
  }

  /** The listing route answers a missing database file with an ok reply that
      carries an empty `tables` array, so loading the tables marks the
      database initialized even then: the "not initialized" branch is never
      taken for a reply of the route. */
  lemma MissingFileLooksInitialized(p: Page, db: Database)
    requires !db.fileExists
    ensures var r := TablesLoaded(p, Success(TablesRoute.Respond(db)));
      r.dbInitialized == Some(true) && r.tables == [] && r.suggestions == TablesReady
  {
  }

  /** Every reply the gateway gives with status 200 is one of the two result
      shapes the page dispatches on. */
  lemma GatewaySuccessShapes(request: Result<Json, Fault>, db: Database)
    requires QueryDelivered(Success(QueryRoute.Respond(request, db)))
    ensures QueryRoute.Respond(request, db).body.RowSet? || QueryRoute.Respond(request, db).body.MutationOutcome?
  {
    QueryRoute.StatusTaxonomy(request, db);
  }
}
