/**
  The practice page as an object: the page's state variables are the fields
  of a session, and each event handler is a method that updates them as the
  corresponding function of the practice module describes.
 */
module PracticeHandlers {
  import opened Wrappers
  import opened JsText
  import opened Http
  import opened Driver
  import Csv
  import QueryRoute
  import TablesRoute
  import PreviewRoute
  import opened Practice

  class PracticeSession {
    /** The `questions` array of the page: always `Questions` (see the constructor). */
    const bank: seq<Question>
    var mode: Mode
    var query: string
    var status: string
    var explanation: string
    var suggestions: string
    var result: Option<ResultView>
    var tables: seq<string>
    var selectedTable: string
    var tablePreview: Option<ResultView>
    var history: seq<string>
    var currentQuestion: nat
    var showEvaluation: bool
    var evaluation: string
    var dbInitialized: Option<bool>

    /** The fields, as one value. */
    function State(): Page
      reads this
    {
      Page(mode, query, status, explanation, suggestions, result, tables, selectedTable, tablePreview,
           history, currentQuestion, showEvaluation, evaluation, dbInitialized)
    }

    /** The bank is not empty and the page keeps `Invariant`. */
    predicate Valid()
      reads this
    {
      0 < |bank| && Invariant(State(), |bank|)
    }

    constructor ()
      ensures Valid() && bank == Questions && State() == InitialPage
    {
      bank := Questions;
      mode := Direct;
      query := "";
      status := "";
      explanation := NoQueryYet;
      suggestions := NoSuggestions;
      result := None;
      tables := [];
      selectedTable := "none";
      tablePreview := None;
      history := [];
      currentQuestion := 0;
      showEvaluation := false;
      evaluation := "";
      dbInitialized := None;
    }

    /** The query editor's `onChange`. */
    method SetQuery(q: string)
      requires Valid()
      modifies this
      ensures Valid() && State() == old(State()).(query := q)
    {
      query := q;
    }

    /** The mode tabs. */
    method SelectMode(m: Mode)
      requires Valid()
      modifies this
      ensures Valid() && State() == old(State()).(mode := m)
    {
      mode := m;
    }

    /** `loadTables`, given what `fetch('/api/tables')` delivered. */
    method LoadTables(response: Result<TablesRoute.Reply, Fault>)
      requires Valid()
      modifies this
      ensures Valid() && State() == TablesLoaded(old(State()), response)
    {
      status := LoadingTables;
      if !TablesDelivered(response) {
        dbInitialized := Some(false);
        suggestions := TablesFailed;
      } else if response.value.body.Listing? {
        tables := response.value.body.tables;
        dbInitialized := Some(true);
        suggestions := TablesReady;
      }
      status := "";
    }

    /** `executeQuery`, given what `fetch('/api/query')` would deliver. `sent`
        is the request body when the guards let the query through. */
    method ExecuteQuery(response: Result<QueryRoute.Reply, Fault>) returns (sent: Option<Result<Json, Fault>>)
      requires Valid()
      modifies this
      ensures sent == Sent(old(State()))
      ensures Valid() && State() == Executed(old(State()), response, bank[old(currentQuestion)].expectedSql)
    {
      ExecutedKeepsInvariant(State(), response, bank[currentQuestion].expectedSql, |bank|);
      sent := Sent(State());
      if sent.None? {
        Refuse();
      } else {
        Send(response);
      }
    }

    /** The guards of `executeQuery`, once one of them has stopped the run. */
    method Refuse()
      modifies this
      ensures State() == Refused(old(State()))
    {
      if Trim(query) == [] {
        status := QueryRequired;
      } else {
        status := NotInitializedStatus;
        suggestions := RunBlocked;
      }
    }

    /** The `try` block of `executeQuery`, given what the request delivered. */
    method Send(response: Result<QueryRoute.Reply, Fault>)
      requires currentQuestion < |bank|
      modifies this
      ensures State() == Answered(old(State()), response, bank[old(currentQuestion)].expectedSql)
    {
      status := Running;
      result := None;
      if QueryDelivered(response) {
        ShowReply(response.value.body);
      } else {
        ShowFailure(response);
      }
    }

    /** The `catch` of `executeQuery`: the reply did not arrive, or was not ok. */
    method ShowFailure(response: Result<QueryRoute.Reply, Fault>)
      modifies this
      ensures State() == Failed(old(State()), response)
    {
      status := QueryFailed;
      explanation := QueryErrored;
      suggestions := QueryFailureText(response);
      result := None;
    }

    /** The part of `executeQuery` after an ok reply. */
    method ShowReply(b: QueryRoute.Body)
      requires currentQuestion < |bank|
      modifies this
      ensures State() == Shown(old(State()), b, bank[old(currentQuestion)].expectedSql)
    {
      Display(b);
      if mode == QuestionMode {
        EvaluateAnswer();
      }
    }

    /** Show an ok reply and push the query onto the history. */
    method Display(b: QueryRoute.Body)
      modifies this
      ensures State() == Displayed(old(State()), b)
    {
      result := Some(QueryView(b));
      explanation := QueryExplanation(b);
      suggestions := NoIssues;
      status := QueryStatus(b);
      history := NewHistory(query, history);
    }

    /** `evaluateAnswer`. */
    method EvaluateAnswer()
      requires currentQuestion < |bank|
      modifies this
      ensures State() == Evaluated(old(State()), bank[old(currentQuestion)].expectedSql)
    {
      var correct := IsCorrect(query, bank[currentQuestion].expectedSql);
      evaluation, showEvaluation := EvaluationText(correct), true;
    }

    /** `clearAll`. */
    method ClearAll()
      requires Valid()
      modifies this
      ensures Valid() && State() == Cleared(old(State()))
    {
      query, result, explanation, suggestions, status, showEvaluation :=
        "", None, NoQueryYet, NotInitializedHint(dbInitialized), "", false;
    }

    /** `exportToCSV`: the text of the file it offers for download, if any. */
    method ExportToCsv() returns (download: Option<string>)
      requires Valid()
      modifies this
      ensures download == Download(old(State()))
      ensures Valid() && State() == ExportedPage(old(State()))
    {
      if result.None? || result.value.rows.None? || result.value.rows.value == [] {
        download := None;
        status := NothingToExport;
      } else {
        download := Some(Csv.Document(result.value.columns, result.value.rows.value));
        status := Exported;
      }
    }

    /** `previewTable`, given what `fetch('/api/table-preview')` would deliver. */
    method PreviewTable(tableName: string, response: Result<PreviewRoute.Reply, Fault>) returns (requested: bool)
      requires Valid()
      modifies this
      ensures requested == PreviewRequested(old(State()), tableName)
      ensures Valid() && State() == Previewed(old(State()), tableName, response)
    {
      selectedTable := tableName;
      if tableName == "none" {
        tablePreview := None;
        requested := false;
      } else if dbInitialized == Some(false) {
        status := NotInitializedStatus;
        requested := false;
      } else {
        requested := true;
        status := LoadingPrefix + tableName + "...";
        ShowPreview(tableName, response);
      }
    }

    /** The part of `previewTable` after the request. */
    method ShowPreview(tableName: string, response: Result<PreviewRoute.Reply, Fault>)
      modifies this
      ensures State() == PreviewShown(old(State()), tableName, response)
    {
      if PreviewDelivered(response) {
        var b := response.value.body;
        tablePreview := Some(PreviewView(b));
        status := PreviewStatus(b, tableName);
      } else {
        status := PreviewFailed;
        suggestions := PreviewFailureText(response);
        tablePreview := None;
      }
    }

    /** `navigateQuestion`. */
    method NavigateQuestion(forward: bool)
      requires Valid()
      modifies this
      ensures Valid() && State() == Navigated(old(State()), forward, |bank|)
    {
      NavigationInverse(currentQuestion, |bank|);
      ResetAttempt();
      currentQuestion := if forward then Next(currentQuestion, |bank|) else Prev(currentQuestion, |bank|);
    }

    /** The first part of `navigateQuestion`. */
    method ResetAttempt()
      modifies this
      ensures State() == AttemptReset(old(State()))
    {
      showEvaluation, evaluation, query, result, explanation, suggestions :=
        false, "", "", None, NoQueryYet, NotInitializedHint(dbInitialized);
    }

    /** `useExample`. */
    method UseExample()
      requires Valid()
      modifies this
      ensures Valid() && State() == old(State()).(query := bank[old(currentQuestion)].example)
    {
      query := bank[currentQuestion].example;
    }

    /** `showExpected`. */
    method ShowExpected()
      requires Valid()
      modifies this
      ensures Valid() && State() == old(State()).(query := bank[old(currentQuestion)].expectedSql, status := ExpectedFilled)
    {
      query := bank[currentQuestion].expectedSql;
      status := ExpectedFilled;
    }
  }

}
