/** The session-cache behaviour of the FastAPI handlers of `VannaFastAPI`.
    Each handler is a pure step from the cache, the request and the answers of
    its collaborators (the language model, the database, the charting
    library) to the new cache, the response and the collaborator calls it
    issued, in order. */
module Handlers {
  import opened Common
  import opened Text
  import opened Json
  import opened SessionCache

  /** The server flags the modelled handlers consult. `runSqlIsSet` is
      `vn.run_sql_is_set`: whether a database connection was configured. */
  datatype Config = Config(allowLlmToSeeData: bool, chart: bool, runSqlIsSet: bool)

  /** What `run_sql_with_retry` returns: the frame (absent once the retries
      are exhausted), the statement finally run and one record per failed
      attempt. */
  datatype RetryResult = RetryResult(df: Option<DataFrame>, finalSql: string, history: seq<JsonValue>)

  /** The collaborators, as functions of their arguments. `render` is Python's
      `str()` of a cached value that is not already a string, and `dtypes` is
      `str(df.dtypes)`, the column types of a cached data frame. */
  datatype Oracles = Oracles(
    generateSql: (string, Option<bool>) -> string,
    isSqlValid: string -> bool,
    runSqlWithRetry: (Value, nat, Value) -> Outcome<RetryResult>,
    shouldGenerateChart: DataFrame -> Outcome<bool>,
    generateFollowupQuestions: (Value, Value, Value) -> Option<seq<string>>,
    enhanceQuestion: string -> Outcome<string>,
    generatePlotlyCode: (Value, Value, string) -> Outcome<string>,
    getPlotlyFigure: (Value, Value) -> Outcome<string>,
    render: Value -> string,
    dtypes: Value -> string)

  /** A collaborator call, with its arguments. `None` for the visibility flag
      of `generate_sql` means the argument was left at its default. */
  datatype Call =
    | GenerateSqlCall(prompt: string, allowLlmToSeeData: Option<bool>)
    | ValidateCall(statement: string)
    | RetryCall(sql: Value, maxRetries: nat, question: Value)
    | ChartCall(frame: DataFrame)
    | FollowupCall(question: Value, sql: Value, df: Value)
    | EnhanceCall(prompt: string)
    | PlotlyCodeCall(question: Value, sql: Value, dfMetadata: string)
    | FigureCall(code: Value, df: Value)

  /** The handlers' answers. `Rejected` is an HTTP 400, `ServerError` an
      exception that escapes the handler. */
  datatype Response =
    | Rejected(detail: string)
    | ServerError(message: string)
    | SqlAnswer(kind: string, id: string, text: string)
    | DfAnswer(id: string, df: DataFrame, shouldGenerateChart: bool, sqlCorrected: bool, correctionAttempts: nat)
    | Clarification(text: string)
    | SqlError(error: string)
    | QuestionList(id: string, questions: Value, header: string)
    | EnhancedQuestion(originalQuestion: Value, enhancedQuestion: string, id: string)
    | ErrorAnswer(error: string)
    | PlotlyFigure(id: string, fig: string, chartInstructionsApplied: bool)
    | ErrorHistory(id: string, history: Value, totalAttempts: Option<nat>)

  datatype Step = Step(cache: Cache, response: Response, calls: seq<Call>)

  const NoQuestionProvided := "No question provided"
  const NoSqlFound := "No SQL found for this ID"
  const NotConnected := "Please connect to a database using vn.connect_to_... in order to run SQL queries."
  const NoQuestionFound := "No question found for this ID"
  const NoDataframeFound := "No dataframe found for this ID"
  const NoCacheId := "No cache ID provided"
  const NoOriginalQuestion := "No original question found for this ID"
  const AmbiguousTruth := "The truth value of a DataFrame is ambiguous. Use a.empty, a.bool(), a.item(), a.any() or a.all()."
  const FollowupHeader := "Here are some potential followup questions:"
  const FollowupDisabledHeader := "Followup Questions can be enabled if you set allow_llm_to_see_data=True"
  const MaxRetries: nat := 2
  const MaxFollowups: nat := 5

  /** Python truthiness of a cached value; a DataFrame refuses to answer. */
  function Truthy(v: Value): (r: Outcome<bool>)
    ensures r.Raised? <==> v.Frame?
    ensures r == Returned(true) ==> v != Null && v != Text("")
  {
    match v
    case Null => Returned(false)
    case Text(s) => Returned(|s| > 0)
    case Frame(_) => Raised(AmbiguousTruth)
    case Records(items) => Returned(|items| > 0)
    case Questions(qs) => Returned(|qs| > 0)
    case Answers(ps) => Returned(|ps| > 0)
  }

  /** What the chart generator is told about the data: only the frame's
      column types, never its rows. */
  function DtypesText(o: Oracles, df: Value): string {
    "Running df.dtypes gives:\n " + o.dtypes(df)
  }

  /** Python's `str()` of a cached value. */
  function Str(o: Oracles, v: Value): string {
    if v.Text? then v.s else o.render(v)
  }

  /** Python's `len()` of a cached value; `len(None)` raises. */
  function PyLen(v: Value): (r: Option<nat>)
    ensures r.None? <==> v == Null
  {
    match v
    case Null => None
    case Text(s) => Some(|s|)
    case Frame(df) => Some(df.rows)
    case Records(items) => Some(|items|)
    case Questions(qs) => Some(|qs|)
    case Answers(ps) => Some(|ps|)
  }

  /** Every (id, field) pair other than `id`'s listed fields reads as before. */
  ghost predicate SameOutside(c: Cache, c': Cache, id: string, fields: set<string>) {
    forall id', f :: (id' != id || f !in fields) ==> Get(c', id', f) == Get(c, id', f)
  }

  /** One `cache.set` stores its value and leaves every other pair alone. */
  lemma SetStores(c: Cache, id: string, field: string, v: Value)
    ensures Get(Set(c, id, field, v), id, field) == v
    ensures SameOutside(c, Set(c, id, field, v), id, {field})
  {
    forall id', f | id' != id || f !in {field}
      ensures Get(Set(c, id, field, v), id', f) == Get(c, id', f)
    {
      SetLeavesOthers(c, id, field, v, id', f);
    }
  }

  /** Two consecutive `cache.set` calls on one session. */
  lemma SetTwiceStores(c: Cache, id: string, f1: string, v1: Value, f2: string, v2: Value)
    requires f1 != f2
    ensures Get(Set(Set(c, id, f1, v1), id, f2, v2), id, f1) == v1
    ensures Get(Set(Set(c, id, f1, v1), id, f2, v2), id, f2) == v2
    ensures SameOutside(c, Set(Set(c, id, f1, v1), id, f2, v2), id, {f1, f2})
  {
    var c1 := Set(c, id, f1, v1);
    SetStores(c, id, f1, v1);
    SetStores(c1, id, f2, v2);
    SetLeavesOthers(c1, id, f2, v2, id, f1);
    SameOutsideWiden(c, c1, Set(c1, id, f2, v2), id, {f1}, {f2});
  }

  // ---------------------------------------------------------------- generate_sql

  /** `generate_sql`: a fresh session holding the question and the generated
      statement; the answer's type says whether the statement validates. */
  function GenerateSql(c: Cache, cfg: Config, o: Oracles, uuid: string, question: string): (r: Step)
    ensures question == "" ==> r == Step(c, Rejected(NoQuestionProvided), [])
    ensures question != "" ==>
      var sql := o.generateSql(question, Some(cfg.allowLlmToSeeData));
      && r.response == SqlAnswer(if o.isSqlValid(sql) then "sql" else "text", uuid, sql)
      && r.calls == [GenerateSqlCall(question, Some(cfg.allowLlmToSeeData)), ValidateCall(sql)]
  {
    if question == "" then Step(c, Rejected(NoQuestionProvided), [])
    else
      var id := GenerateId(c, uuid).0;
      var c1 := GenerateId(c, uuid).1;
      var sql := o.generateSql(question, Some(cfg.allowLlmToSeeData));
      var c2 := Set(Set(c1, id, "question", Text(question)), id, "sql", Text(sql));
      Step(c2, SqlAnswer(if o.isSqlValid(sql) then "sql" else "text", id, sql),
           [GenerateSqlCall(question, Some(cfg.allowLlmToSeeData)), ValidateCall(sql)])
  }

  /** A non-empty question is stored with its statement under the fresh id;
      nothing else changes, and the answer is of type "sql" exactly when the
      stored statement validates. */
  lemma GenerateSqlStores(c: Cache, cfg: Config, o: Oracles, uuid: string, question: string)
    requires question != ""
    ensures var r := GenerateSql(c, cfg, o, uuid, question);
            && Get(r.cache, uuid, "question") == Text(question)
            && Get(r.cache, uuid, "sql") == Text(r.response.text)
            && (r.response.kind == "sql" <==> o.isSqlValid(r.response.text))
            && r.response.id == uuid
            && SameOutside(c, r.cache, uuid, {"question", "sql"})
            && (Valid(c) ==> Valid(r.cache))
  {
    var sql := o.generateSql(question, Some(cfg.allowLlmToSeeData));
    SetTwiceStores(c, uuid, "question", Text(question), "sql", Text(sql));
  }

  // ---------------------------------------------------------------- run_sql

  /** The clarification `run_sql` returns when every retry failed. */
  function ClarifyMessage(question: string): string {
    ClarifyIntro + question + ClarifyOutro
  }

  const ClarifyIntro := "I'm having trouble generating the right SQL for '"
  const ClarifyOutro := "'. Could you provide more context or clarify what specific information you're looking for? This will help me understand your request better."

  /** The writes of a successful execution: the frame, the statement finally
      run, and the failed attempts when there were any. */
  function StoreSuccess(c: Cache, id: string, df: DataFrame, res: RetryResult): (r: Cache)
    ensures Get(r, id, "df") == Frame(df)
    ensures Get(r, id, "sql") == Text(res.finalSql)
    ensures Get(r, id, "error_history") == if |res.history| > 0 then Records(res.history) else Get(c, id, "error_history")
    ensures SameOutside(c, r, id, {"df", "sql", "error_history"})
  {
    var c1 := Set(Set(c, id, "df", Frame(df)), id, "sql", Text(res.finalSql));
    SetTwiceStores(c, id, "df", Frame(df), "sql", Text(res.finalSql));
    if |res.history| > 0 then
      SetStores(c1, id, "error_history", Records(res.history));
      SetLeavesOthers(c1, id, "error_history", Records(res.history), id, "df");
      SetLeavesOthers(c1, id, "error_history", Records(res.history), id, "sql");
      SameOutsideWiden(c, c1, Set(c1, id, "error_history", Records(res.history)), id, {"df", "sql"}, {"error_history"});
      Set(c1, id, "error_history", Records(res.history))
    else
      SameOutsideWiden(c, c1, c1, id, {"df", "sql"}, {"error_history"});
      c1
  }

  /** `run_sql`. The question handed to the retry routine is the cached one,
      or "Query execution" when that is missing or empty. An exception inside
      the guarded block becomes an "Unexpected error" answer; the writes made
      before it stay. */
  function RunSql(c: Cache, cfg: Config, o: Oracles, id: string): (r: Step)
    ensures Get(c, id, "sql") == Null ==> r == Step(c, Rejected(NoSqlFound), [])
    ensures Get(c, id, "sql") != Null && !cfg.runSqlIsSet ==> r == Step(c, Rejected(NotConnected), [])
    ensures r.response.Rejected? <==> Get(c, id, "sql") == Null || !cfg.runSqlIsSet
    ensures !r.response.DfAnswer? ==> SameOutside(c, r.cache, id, {"df", "sql", "error_history"})
  {
    var sql := Get(c, id, "sql");
    if sql == Null then Step(c, Rejected(NoSqlFound), [])
    else if !cfg.runSqlIsSet then Step(c, Rejected(NotConnected), [])
    else
      var question := Get(c, id, "question");
      match Truthy(question)
      case Raised(m) => Step(c, SqlError("Unexpected error: " + m), [])
      case Returned(given) =>
        var asked := if given then question else Text("Query execution");
        var retry := RetryCall(sql, MaxRetries, asked);
        match o.runSqlWithRetry(sql, MaxRetries, asked)
        case Raised(m) => Step(c, SqlError("Unexpected error: " + m), [retry])
        case Returned(res) =>
          if res.df.Some? then
            var c' := StoreSuccess(c, id, res.df.value, res);
            var corrected := Text(res.finalSql) != sql;
            if cfg.chart then
              match o.shouldGenerateChart(res.df.value)
              case Raised(m) => Step(c', SqlError("Unexpected error: " + m), [retry, ChartCall(res.df.value)])
              case Returned(chart) =>
                Step(c', DfAnswer(id, res.df.value, chart, corrected, |res.history|), [retry, ChartCall(res.df.value)])
            else
              Step(c', DfAnswer(id, res.df.value, false, corrected, |res.history|), [retry])
          else
            Step(c, Clarification(ClarifyMessage(if given then Str(o, question) else "your question")), [retry])
  }

  /** With a statement cached and a database connected, the first collaborator
      call is the retry routine, with at most two retries and the cached
      question or its default. */
  lemma RunSqlCallsRetry(c: Cache, cfg: Config, o: Oracles, id: string, question: string)
    requires Get(c, id, "sql") != Null && cfg.runSqlIsSet
    requires Get(c, id, "question") == Text(question) || (question == "" && Get(c, id, "question") == Null)
    ensures var r := RunSql(c, cfg, o, id);
            && |r.calls| > 0
            && r.calls[0] == RetryCall(Get(c, id, "sql"), 2, Text(if question == "" then "Query execution" else question))
  {
  }

  /** On success the frame is stored, the statement is replaced by the one
      finally run, the failure history is stored only when non-empty, and
      nothing else changes. The answer reports a correction exactly when the
      final statement differs from the cached one. */
  lemma RunSqlSuccess(c: Cache, cfg: Config, o: Oracles, id: string, question: Value, res: RetryResult)
    requires Get(c, id, "sql") != Null && cfg.runSqlIsSet
    requires question == Get(c, id, "question") && !question.Frame?
    requires o.runSqlWithRetry(Get(c, id, "sql"), 2, if Truthy(question) == Returned(true) then question else Text("Query execution")) == Returned(res)
    requires res.df.Some?
    ensures var r := RunSql(c, cfg, o, id);
            && Get(r.cache, id, "df") == Frame(res.df.value)
            && Get(r.cache, id, "sql") == Text(res.finalSql)
            && (|res.history| > 0 ==> Get(r.cache, id, "error_history") == Records(res.history))
            && (|res.history| == 0 ==> Get(r.cache, id, "error_history") == Get(c, id, "error_history"))
            && SameOutside(c, r.cache, id, {"df", "sql", "error_history"})
            && (r.response.DfAnswer? ==>
                  && r.response.df == res.df.value
                  && (r.response.sqlCorrected <==> Text(res.finalSql) != Get(c, id, "sql"))
                  && r.response.correctionAttempts == |res.history|)
            && (!cfg.chart ==> r.response.DfAnswer? && !r.response.shouldGenerateChart)
  {
  }

  /** When the retries are exhausted nothing is written, and the answer asks
      for clarification about the cached question. */
  lemma RunSqlExhausted(c: Cache, cfg: Config, o: Oracles, id: string, res: RetryResult)
    requires Get(c, id, "sql") != Null && cfg.runSqlIsSet
    requires !Get(c, id, "question").Frame?
    requires var q := Get(c, id, "question");
             o.runSqlWithRetry(Get(c, id, "sql"), 2, if Truthy(q) == Returned(true) then q else Text("Query execution")) == Returned(res)
    requires res.df.None?
    ensures var r := RunSql(c, cfg, o, id);
            && r.cache == c
            && r.response.Clarification?
            && (Get(c, id, "question") == Null ==> r.response.text == ClarifyMessage("your question"))
  {
  }

  // ---------------------------------------------------------------- fix_sql / update_sql

  const FixIntro := "I have an error: "
  const FixSqlLabel := "\n\nHere is the SQL I tried to run: "
  const FixQuestionLabel := "\n\nThis is the question I was trying to answer: "
  const FixOutro := "\n\nCan you rewrite the SQL to fix the error?"

  /** The request `fix_sql` sends to the language model. */
  function FixPrompt(error: string, sql: string, question: string): string {
    FixIntro + error + FixSqlLabel + sql + FixQuestionLabel + question + FixOutro
  }

  /** `fix_sql`: needs both the question and the statement; the statement is
      replaced by the model's rewrite. */
  function FixSql(c: Cache, o: Oracles, id: string, error: string): (r: Step)
    ensures Get(c, id, "question") == Null ==> r == Step(c, Rejected(NoQuestionFound), [])
    ensures Get(c, id, "question") != Null && Get(c, id, "sql") == Null ==> r == Step(c, Rejected(NoSqlFound), [])
    ensures r.response.Rejected? <==> Get(c, id, "question") == Null || Get(c, id, "sql") == Null
  {
    var question := Get(c, id, "question");
    var sql := Get(c, id, "sql");
    if question == Null then Step(c, Rejected(NoQuestionFound), [])
    else if sql == Null then Step(c, Rejected(NoSqlFound), [])
    else
      var prompt := FixPrompt(error, Str(o, sql), Str(o, question));
      var fixed := o.generateSql(prompt, None);
      Step(Set(c, id, "sql", Text(fixed)), SqlAnswer("sql", id, fixed), [GenerateSqlCall(prompt, None)])
  }

  /** A successful fix overwrites only the statement, with the text it
      answers, and the prompt carries the error, the old statement and the
      question. */
  lemma FixSqlOverwritesOnlySql(c: Cache, o: Oracles, id: string, error: string, question: string, sql: string)
    requires Get(c, id, "question") == Text(question) && Get(c, id, "sql") == Text(sql)
    ensures var r := FixSql(c, o, id, error);
            && r.response.SqlAnswer? && r.response.kind == "sql" && r.response.id == id
            && Get(r.cache, id, "sql") == Text(r.response.text)
            && SameOutside(c, r.cache, id, {"sql"})
            && r.cache.order == c.order
            && r.calls == [GenerateSqlCall(FixPrompt(error, sql, question), None)]
  {
  }

  /** `update_sql`: stores the given statement, whether or not the session
      exists. */
  function UpdateSql(c: Cache, id: string, sql: string): (r: Step)
    ensures Get(r.cache, id, "sql") == Text(sql)
    ensures SameOutside(c, r.cache, id, {"sql"})
    ensures r.response == SqlAnswer("sql", id, sql) && r.calls == []
  {
    Step(Set(c, id, "sql", Text(sql)), SqlAnswer("sql", id, sql), [])
  }

  // ---------------------------------------------------------------- generate_followup_questions

  /** At most the first five follow-up questions are kept; `None` stays `None`. */
  function FirstFollowups(qs: Option<seq<string>>): (r: Value)
    ensures qs.None? ==> r == Null
    ensures qs.Some? ==> r.Questions? && |r.questions| <= MaxFollowups
                         && r.questions <= qs.value
                         && (|qs.value| <= MaxFollowups ==> r.questions == qs.value)
                         && (|qs.value| > MaxFollowups ==> r.questions == qs.value[..MaxFollowups])
  {
    match qs
    case None => Null
    case Some(q) => Questions(if |q| > MaxFollowups then q[..MaxFollowups] else q)
  }

  /** `generate_followup_questions`: needs the frame, the question and the
      statement, checked in that order; stores the (truncated) questions, or
      [] when the model may not see the data. */
  function GenerateFollowupQuestions(c: Cache, cfg: Config, o: Oracles, id: string): (r: Step)
    ensures Get(c, id, "df") == Null ==> r == Step(c, Rejected(NoDataframeFound), [])
    ensures Get(c, id, "df") != Null && Get(c, id, "question") == Null ==> r == Step(c, Rejected(NoQuestionFound), [])
    ensures Get(c, id, "df") != Null && Get(c, id, "question") != Null && Get(c, id, "sql") == Null ==>
              r == Step(c, Rejected(NoSqlFound), [])
    ensures !r.response.Rejected? ==>
              && r.response.QuestionList?
              && Get(r.cache, id, "followup_questions") == r.response.questions
              && SameOutside(c, r.cache, id, {"followup_questions"})
  {
    var df := Get(c, id, "df");
    var question := Get(c, id, "question");
    var sql := Get(c, id, "sql");
    if df == Null then Step(c, Rejected(NoDataframeFound), [])
    else if question == Null then Step(c, Rejected(NoQuestionFound), [])
    else if sql == Null then Step(c, Rejected(NoSqlFound), [])
    else if cfg.allowLlmToSeeData then
      var kept := FirstFollowups(o.generateFollowupQuestions(question, sql, df));
      Step(Set(c, id, "followup_questions", kept), QuestionList(id, kept, FollowupHeader),
           [FollowupCall(question, sql, df)])
    else
      Step(Set(c, id, "followup_questions", Questions([])), QuestionList(id, Questions([]), FollowupDisabledHeader), [])
  }

  /** The stored follow-ups never number more than five and are the model's
      first ones; when the model may not see the data, [] is stored without
      asking it. */
  lemma FollowupsBounded(c: Cache, cfg: Config, o: Oracles, id: string)
    requires Get(c, id, "df") != Null && Get(c, id, "question") != Null && Get(c, id, "sql") != Null
    ensures var r := GenerateFollowupQuestions(c, cfg, o, id);
            var stored := Get(r.cache, id, "followup_questions");
            && (stored.Questions? ==> |stored.questions| <= 5)
            && (!cfg.allowLlmToSeeData ==> stored == Questions([]) && r.calls == [])
            && (cfg.allowLlmToSeeData ==>
                  var asked := o.generateFollowupQuestions(Get(c, id, "question"), Get(c, id, "sql"), Get(c, id, "df"));
                  && (asked.None? ==> stored == Null)
                  && (asked.Some? ==> stored.Questions? && stored.questions <= asked.value))
  {
  }

  // ---------------------------------------------------------------- answer_conversation

  /** The context lines: "Q: …\nA: …" for each answer that is not blank, in
      the order the answers were given. */
  function ContextParts(answers: seq<(string, string)>): (r: seq<string>)
    ensures |r| <= |answers|
  {
    if |answers| == 0 then []
    else
      var rest := ContextParts(answers[1..]);
      if IsBlank(answers[0].1) then rest
      else ["Q: " + answers[0].0 + "\nA: " + answers[0].1] + rest
  }

  function ConversationContext(answers: seq<(string, string)>): string {
    Join("\n\n", ContextParts(answers))
  }

  /** A context line exists for an answer exactly when the answer is not
      blank. */
  lemma {:induction false} ContextPartsKeepAnswered(answers: seq<(string, string)>, k: nat)
    requires k < |answers|
    ensures !IsBlank(answers[k].1) ==> "Q: " + answers[k].0 + "\nA: " + answers[k].1 in ContextParts(answers)
    ensures forall p :: p in ContextParts(answers) ==>
              exists j :: 0 <= j < |answers| && !IsBlank(answers[j].1) && p == "Q: " + answers[j].0 + "\nA: " + answers[j].1
    decreases |answers|
  {
    var rest := answers[1..];
    if k > 0 {
      ContextPartsKeepAnswered(rest, k - 1);
      assert rest[k - 1] == answers[k];
    } else if |rest| > 0 {
      ContextPartsKeepAnswered(rest, 0);
    }
    if |rest| > 0 {
      forall p | p in ContextParts(rest)
        ensures exists j :: 0 <= j < |answers| && !IsBlank(answers[j].1) && p == "Q: " + answers[j].0 + "\nA: " + answers[j].1
      {
        var j :| 0 <= j < |rest| && !IsBlank(rest[j].1) && p == "Q: " + rest[j].0 + "\nA: " + rest[j].1;
        assert rest[j] == answers[j + 1];
      }
    }
  }

  /** Blank answers contribute nothing: the context is empty exactly when
      every answer is blank. */
  lemma {:induction false} ContextEmptyIffAllBlank(answers: seq<(string, string)>)
    ensures ConversationContext(answers) == "" <==> forall k :: 0 <= k < |answers| ==> IsBlank(answers[k].1)
    decreases |answers|
  {
    if |answers| > 0 {
      ContextEmptyIffAllBlank(answers[1..]);
      assert forall k :: 1 <= k < |answers| ==> answers[1..][k - 1] == answers[k];
      var parts := ContextParts(answers);
      if !IsBlank(answers[0].1) {
        assert |parts[0]| > 0;
        JoinStartsWithFirst(parts);
      } else {
        assert parts == ContextParts(answers[1..]);
      }
    }
  }

  lemma JoinStartsWithFirst(parts: seq<string>)
    requires |parts| > 0 && |parts[0]| > 0
    ensures Join("\n\n", parts) != ""
  {
  }

  const EnhanceIntro := "\nBased on the user's original question and their additional context, generate a more specific and clear question that better captures what they want.\n\nOriginal Question: "
  const EnhanceMiddle := "\n\nAdditional Context from User:\n"
  const EnhanceOutro := "\n\nGenerate a rewritten question that:\n1. Incorporates the additional context provided\n2. Is more specific about what data they want\n3. Includes relevant filters, timeframes, or conditions mentioned\n4. Is clear enough to generate accurate SQL\n\nReturn only the rewritten question, nothing else.\n"

  /** The request sent to the model to rewrite the question. */
  function EnhancePrompt(original: string, context: string): string {
    EnhanceIntro + original + EnhanceMiddle + context + EnhanceOutro
  }

  /** `answer_conversation`: needs an id and a non-empty cached question;
      stores the rewritten question and the answers given. */
  function AnswerConversation(c: Cache, o: Oracles, cacheId: Option<string>, answers: seq<(string, string)>): (r: Step)
    ensures (cacheId.None? || cacheId.value == "") ==> r == Step(c, Rejected(NoCacheId), [])
    ensures cacheId.Some? && cacheId.value != "" && Truthy(Get(c, cacheId.value, "question")) == Returned(false) ==>
              r == Step(c, Rejected(NoOriginalQuestion), [])
    ensures !r.response.EnhancedQuestion? ==> r.cache == c
  {
    if cacheId.None? || cacheId.value == "" then Step(c, Rejected(NoCacheId), [])
    else
      var id := cacheId.value;
      var question := Get(c, id, "question");
      match Truthy(question)
      case Raised(m) => Step(c, ServerError(m), [])
      case Returned(given) =>
        if !given then Step(c, Rejected(NoOriginalQuestion), [])
        else
          var prompt := EnhancePrompt(Str(o, question), ConversationContext(answers));
          match o.enhanceQuestion(prompt)
          case Raised(m) => Step(c, ErrorAnswer("Failed to enhance question: " + m), [EnhanceCall(prompt)])
          case Returned(better) =>
            Step(Set(Set(c, id, "enhanced_question", Text(better)), id, "conversation_context", Answers(answers)),
                 EnhancedQuestion(question, better, id), [EnhanceCall(prompt)])
  }

  /** With a cached question, the model is asked once, with the question and
      the context of the non-blank answers; on success the rewrite and the
      answers are stored and nothing else changes. */
  lemma AnswerConversationStores(c: Cache, o: Oracles, id: string, answers: seq<(string, string)>, question: string)
    requires id != "" && question != "" && Get(c, id, "question") == Text(question)
    ensures var r := AnswerConversation(c, o, Some(id), answers);
            var prompt := EnhancePrompt(question, ConversationContext(answers));
            && r.calls == [EnhanceCall(prompt)]
            && (o.enhanceQuestion(prompt).Returned? ==>
                  && r.response == EnhancedQuestion(Text(question), o.enhanceQuestion(prompt).value, id)
                  && Get(r.cache, id, "enhanced_question") == Text(o.enhanceQuestion(prompt).value)
                  && Get(r.cache, id, "conversation_context") == Answers(answers)
                  && SameOutside(c, r.cache, id, {"enhanced_question", "conversation_context"}))
            && (o.enhanceQuestion(prompt).Raised? ==>
                  r.response == ErrorAnswer("Failed to enhance question: " + o.enhanceQuestion(prompt).message))
  {
    var prompt := EnhancePrompt(question, ConversationContext(answers));
    assert Str(o, Text(question)) == question;
    if o.enhanceQuestion(prompt).Returned? {
      var better := o.enhanceQuestion(prompt).value;
      SetTwiceStores(c, id, "enhanced_question", Text(better), "conversation_context", Answers(answers));
    }
  }

  // ---------------------------------------------------------------- get_error_history

  /** `get_error_history`: a missing history reads as [] with no attempt count. */
  function GetErrorHistory(c: Cache, id: string): (r: Step)
    ensures r.cache == c && r.calls == []
    ensures Get(c, id, "error_history") == Null ==> r.response == ErrorHistory(id, Records([]), None)
    ensures Get(c, id, "error_history") != Null ==>
              && r.response.ErrorHistory?
              && r.response.history == Get(c, id, "error_history")
              && r.response.totalAttempts.Some?
  {
    var history := Get(c, id, "error_history");
    if history == Null then Step(c, ErrorHistory(id, Records([]), None), [])
    else Step(c, ErrorHistory(id, history, PyLen(history)), [])
  }

  /** The history `run_sql` stores is read back whole, with its length as the
      attempt count. */
  lemma ErrorHistoryAfterRun(c: Cache, cfg: Config, o: Oracles, id: string, res: RetryResult)
    requires Get(c, id, "sql") != Null && cfg.runSqlIsSet
    requires !Get(c, id, "question").Frame?
    requires var q := Get(c, id, "question");
             o.runSqlWithRetry(Get(c, id, "sql"), 2, if Truthy(q) == Returned(true) then q else Text("Query execution")) == Returned(res)
    requires res.df.Some? && |res.history| > 0
    ensures GetErrorHistory(RunSql(c, cfg, o, id).cache, id).response
            == ErrorHistory(id, Records(res.history), Some(|res.history|))
  {
  }

  // ---------------------------------------------------------------- generate_plotly_figure

  /** The instructions count as given only when they are not blank. */
  predicate InstructionsGiven(instructions: Option<string>) {
    instructions.Some? && !IsBlank(instructions.value)
  }

  /** The figure step shared by both paths: render the code and store the
      figure's JSON. */
  function RenderFigure(c: Cache, o: Oracles, id: string, df: Value, code: Value, calls: seq<Call>, applied: bool): (r: Step)
    ensures r.calls == calls + [FigureCall(code, df)]
    ensures o.getPlotlyFigure(code, df).Raised? ==> r.cache == c && r.response == ErrorAnswer(o.getPlotlyFigure(code, df).message)
    ensures o.getPlotlyFigure(code, df).Returned? ==>
              && Get(r.cache, id, "fig_json") == Text(o.getPlotlyFigure(code, df).value)
              && SameOutside(c, r.cache, id, {"fig_json"})
              && r.response == PlotlyFigure(id, o.getPlotlyFigure(code, df).value, applied)
  {
    match o.getPlotlyFigure(code, df)
    case Raised(m) => Step(c, ErrorAnswer(m), calls + [FigureCall(code, df)])
    case Returned(fig) => Step(Set(c, id, "fig_json", Text(fig)), PlotlyFigure(id, fig, applied), calls + [FigureCall(code, df)])
  }

  const InstructionsLabel := ". When generating the chart, use these special instructions: "

  /** The question handed to the chart generator along with instructions. */
  function InstructedQuestion(question: string, instructions: string): string {
    question + InstructionsLabel + instructions
  }

  /** `generate_plotly_figure`: needs the frame, the question and the
      statement. Without instructions the cached chart code is reused, and
      generated and stored only when absent; with instructions the code is
      always regenerated and stored together with the instructions. */
  function GeneratePlotlyFigure(c: Cache, o: Oracles, id: string, instructions: Option<string>): (r: Step)
    ensures Get(c, id, "df") == Null ==> r == Step(c, Rejected(NoDataframeFound), [])
    ensures Get(c, id, "df") != Null && Get(c, id, "question") == Null ==> r == Step(c, Rejected(NoQuestionFound), [])
    ensures Get(c, id, "df") != Null && Get(c, id, "question") != Null && Get(c, id, "sql") == Null ==>
              r == Step(c, Rejected(NoSqlFound), [])
    ensures r.response.PlotlyFigure? ==> r.response.chartInstructionsApplied == InstructionsGiven(instructions)
    ensures forall k :: 0 <= k < |r.calls| && r.calls[k].PlotlyCodeCall? ==>
              r.calls[k].dfMetadata == DtypesText(o, Get(c, id, "df"))
  {
    var df := Get(c, id, "df");
    var question := Get(c, id, "question");
    var sql := Get(c, id, "sql");
    if df == Null then Step(c, Rejected(NoDataframeFound), [])
    else if question == Null then Step(c, Rejected(NoQuestionFound), [])
    else if sql == Null then Step(c, Rejected(NoSqlFound), [])
    else if !InstructionsGiven(instructions) then
      var cached := Get(c, id, "plotly_code");
      if cached != Null then RenderFigure(c, o, id, df, cached, [], false)
      else
        var call := PlotlyCodeCall(question, sql, DtypesText(o, df));
        match o.generatePlotlyCode(question, sql, DtypesText(o, df))
        case Raised(m) => Step(c, ErrorAnswer(m), [call])
        case Returned(code) => RenderFigure(Set(c, id, "plotly_code", Text(code)), o, id, df, Text(code), [call], false)
    else
      var asked := Text(InstructedQuestion(Str(o, question), instructions.value));
      var call := PlotlyCodeCall(asked, sql, DtypesText(o, df));
      match o.generatePlotlyCode(asked, sql, DtypesText(o, df))
      case Raised(m) => Step(c, ErrorAnswer(m), [call])
      case Returned(code) =>
        var c' := Set(Set(c, id, "plotly_code", Text(code)), id, "chart_instructions", Text(instructions.value));
        RenderFigure(c', o, id, df, Text(code), [call], true)
  }

  /** Without (or with blank) instructions, cached chart code is reused: the
      generator is not asked and only the figure is stored. */
  lemma PlotlyReusesCachedCode(c: Cache, o: Oracles, id: string, instructions: Option<string>)
    requires Get(c, id, "df") != Null && Get(c, id, "question") != Null && Get(c, id, "sql") != Null
    requires !InstructionsGiven(instructions) && Get(c, id, "plotly_code") != Null
    ensures var r := GeneratePlotlyFigure(c, o, id, instructions);
            && r.calls == [FigureCall(Get(c, id, "plotly_code"), Get(c, id, "df"))]
            && SameOutside(c, r.cache, id, {"fig_json"})
            && Get(r.cache, id, "plotly_code") == Get(c, id, "plotly_code")
  {
  }

  /** Without instructions and without cached code, the code is generated from
      the cached question and stored. */
  lemma PlotlyGeneratesMissingCode(c: Cache, o: Oracles, id: string, instructions: Option<string>, code: string)
    requires Get(c, id, "df") != Null && Get(c, id, "question") != Null && Get(c, id, "sql") != Null
    requires !InstructionsGiven(instructions) && Get(c, id, "plotly_code") == Null
    requires o.generatePlotlyCode(Get(c, id, "question"), Get(c, id, "sql"), DtypesText(o, Get(c, id, "df"))) == Returned(code)
    ensures var r := GeneratePlotlyFigure(c, o, id, instructions);
            && r.calls[0] == PlotlyCodeCall(Get(c, id, "question"), Get(c, id, "sql"), DtypesText(o, Get(c, id, "df")))
            && Get(r.cache, id, "plotly_code") == Text(code)
            && SameOutside(c, r.cache, id, {"plotly_code", "fig_json"})
  {
    var df, question, sql := Get(c, id, "df"), Get(c, id, "question"), Get(c, id, "sql");
    var c' := Set(c, id, "plotly_code", Text(code));
    SetStores(c, id, "plotly_code", Text(code));
    var r := RenderFigure(c', o, id, df, Text(code), [PlotlyCodeCall(question, sql, DtypesText(o, df))], false);
    assert GeneratePlotlyFigure(c, o, id, instructions) == r;
    SameOutsideWiden(c, c', r.cache, id, {"plotly_code"}, {"fig_json"});
  }

  /** Instructions that are not blank always regenerate the code, even when
      some is cached, and store it together with the instructions. */
  lemma PlotlyRegeneratesWithInstructions(c: Cache, o: Oracles, id: string, instructions: string, question: string, code: string)
    requires Get(c, id, "df") != Null && Get(c, id, "sql") != Null
    requires Get(c, id, "question") == Text(question)
    requires !IsBlank(instructions)
    requires o.generatePlotlyCode(Text(InstructedQuestion(question, instructions)), Get(c, id, "sql"), DtypesText(o, Get(c, id, "df"))) == Returned(code)
    ensures var r := GeneratePlotlyFigure(c, o, id, Some(instructions));
            && r.calls[0] == PlotlyCodeCall(Text(InstructedQuestion(question, instructions)), Get(c, id, "sql"), DtypesText(o, Get(c, id, "df")))
            && Get(r.cache, id, "plotly_code") == Text(code)
            && Get(r.cache, id, "chart_instructions") == Text(instructions)
            && SameOutside(c, r.cache, id, {"plotly_code", "chart_instructions", "fig_json"})
  {
    var asked := Text(InstructedQuestion(question, instructions));
    var c' := Set(Set(c, id, "plotly_code", Text(code)), id, "chart_instructions", Text(instructions));
    SetTwiceStores(c, id, "plotly_code", Text(code), "chart_instructions", Text(instructions));
    var call := PlotlyCodeCall(asked, Get(c, id, "sql"), DtypesText(o, Get(c, id, "df")));
    var r := RenderFigure(c', o, id, Get(c, id, "df"), Text(code), [call], true);
    assert GeneratePlotlyFigure(c, o, id, Some(instructions)) == r;
    SameOutsideWiden(c, c', r.cache, id, {"plotly_code", "chart_instructions"}, {"fig_json"});
  }

  /** Frames compose: what two steps leave alone, their sequence leaves alone. */
  lemma SameOutsideWiden(c: Cache, c': Cache, c'': Cache, id: string, first: set<string>, second: set<string>)
    requires SameOutside(c, c', id, first)
    requires SameOutside(c', c'', id, second) || c'' == c'
    ensures SameOutside(c, c'', id, first + second)
  {
  }

  // ---------------------------------------------------------------- shapes

  /** The shape of value each handler writes under each field name. */
  predicate FieldShape(field: string, v: Value) {
    if field in {"question", "sql", "plotly_code", "chart_instructions", "fig_json", "enhanced_question"} then v.Text?
    else if field == "df" then v.Frame?
    else if field == "error_history" then v.Records?
    else if field == "followup_questions" then v.Questions? || v.Null?
    else if field == "conversation_context" then v.Answers?
    else true
  }

  /** Every stored field has the shape its name promises. */
  ghost predicate WellTyped(c: Cache) {
    forall id, f :: id in c.entries && f in c.entries[id] ==> FieldShape(f, c.entries[id][f])
  }

  lemma SetKeepsWellTyped(c: Cache, id: string, field: string, v: Value)
    requires WellTyped(c) && FieldShape(field, v)
    ensures WellTyped(Set(c, id, field, v))
  {
  }

  /** In a well-typed cache the question is text, so its truthiness never
      raises and the handlers' "missing question" checks never crash. */
  lemma WellTypedQuestion(c: Cache, id: string)
    requires WellTyped(c)
    ensures Get(c, id, "question") == Null || Get(c, id, "question").Text?
    ensures Truthy(Get(c, id, "question")).Returned?
  {
  }

  /** Every handler keeps the cache well typed and keeps the insertion order
      listing every session once. */
  lemma GenerateSqlKeepsShapes(c: Cache, cfg: Config, o: Oracles, uuid: string, question: string)
    requires WellTyped(c) && Valid(c)
    ensures var r := GenerateSql(c, cfg, o, uuid, question); WellTyped(r.cache) && Valid(r.cache)
  {
    if question != "" {
      var sql := o.generateSql(question, Some(cfg.allowLlmToSeeData));
      SetKeepsWellTyped(c, uuid, "question", Text(question));
      SetKeepsWellTyped(Set(c, uuid, "question", Text(question)), uuid, "sql", Text(sql));
    }
  }

  lemma RunSqlKeepsShapes(c: Cache, cfg: Config, o: Oracles, id: string)
    requires WellTyped(c) && Valid(c)
    ensures var r := RunSql(c, cfg, o, id); WellTyped(r.cache) && Valid(r.cache)
  {
    var sql := Get(c, id, "sql");
    var question := Get(c, id, "question");
    if sql != Null && cfg.runSqlIsSet && Truthy(question).Returned? {
      var asked := if Truthy(question).value then question else Text("Query execution");
      var outcome := o.runSqlWithRetry(sql, MaxRetries, asked);
      if outcome.Returned? && outcome.value.df.Some? {
        StoreSuccessKeepsShapes(c, id, outcome.value.df.value, outcome.value);
      }
    }
  }

  lemma StoreSuccessKeepsShapes(c: Cache, id: string, df: DataFrame, res: RetryResult)
    requires WellTyped(c) && Valid(c)
    ensures WellTyped(StoreSuccess(c, id, df, res)) && Valid(StoreSuccess(c, id, df, res))
  {
    var c1 := Set(c, id, "df", Frame(df));
    SetKeepsWellTyped(c, id, "df", Frame(df));
    SetKeepsWellTyped(c1, id, "sql", Text(res.finalSql));
    if |res.history| > 0 {
      SetKeepsWellTyped(Set(c1, id, "sql", Text(res.finalSql)), id, "error_history", Records(res.history));
    }
  }

  lemma FixSqlKeepsShapes(c: Cache, o: Oracles, id: string, error: string)
    requires WellTyped(c) && Valid(c)
    ensures var r := FixSql(c, o, id, error); WellTyped(r.cache) && Valid(r.cache)
  {
  }

  lemma UpdateSqlKeepsShapes(c: Cache, id: string, sql: string)
    requires WellTyped(c) && Valid(c)
    ensures var r := UpdateSql(c, id, sql); WellTyped(r.cache) && Valid(r.cache)
  {
  }

  lemma FollowupsKeepsShapes(c: Cache, cfg: Config, o: Oracles, id: string)
    requires WellTyped(c) && Valid(c)
    ensures var r := GenerateFollowupQuestions(c, cfg, o, id); WellTyped(r.cache) && Valid(r.cache)
  {
    var df, question, sql := Get(c, id, "df"), Get(c, id, "question"), Get(c, id, "sql");
    if df != Null && question != Null && sql != Null {
      if cfg.allowLlmToSeeData {
        SetKeepsWellTyped(c, id, "followup_questions", FirstFollowups(o.generateFollowupQuestions(question, sql, df)));
      } else {
        SetKeepsWellTyped(c, id, "followup_questions", Questions([]));
      }
    }
  }

  lemma AnswerConversationKeepsShapes(c: Cache, o: Oracles, cacheId: Option<string>, answers: seq<(string, string)>)
    requires WellTyped(c) && Valid(c)
    ensures var r := AnswerConversation(c, o, cacheId, answers); WellTyped(r.cache) && Valid(r.cache)
  {
    if cacheId.Some? && cacheId.value != "" {
      var id := cacheId.value;
      var question := Get(c, id, "question");
      if Truthy(question) == Returned(true) {
        var prompt := EnhancePrompt(Str(o, question), ConversationContext(answers));
        if o.enhanceQuestion(prompt).Returned? {
          var better := o.enhanceQuestion(prompt).value;
          var c1 := Set(c, id, "enhanced_question", Text(better));
          SetKeepsWellTyped(c, id, "enhanced_question", Text(better));
          SetKeepsWellTyped(c1, id, "conversation_context", Answers(answers));
          assert AnswerConversation(c, o, cacheId, answers).cache == Set(c1, id, "conversation_context", Answers(answers));
        }
      }
    }
  }

  lemma GetErrorHistoryKeepsShapes(c: Cache, id: string)
    requires WellTyped(c) && Valid(c)
    ensures var r := GetErrorHistory(c, id); WellTyped(r.cache) && Valid(r.cache)
  {
  }

  lemma PlotlyFigureKeepsShapes(c: Cache, o: Oracles, id: string, instructions: Option<string>)
    requires WellTyped(c) && Valid(c)
    ensures var r := GeneratePlotlyFigure(c, o, id, instructions); WellTyped(r.cache) && Valid(r.cache)
  {
    var df := Get(c, id, "df");
    var question := Get(c, id, "question");
    var sql := Get(c, id, "sql");
    if df != Null && question != Null && sql != Null {
      if !InstructionsGiven(instructions) {
        var cached := Get(c, id, "plotly_code");
        if cached != Null {
          RenderFigureKeepsShapes(c, o, id, df, cached, [], false);
        } else if o.generatePlotlyCode(question, sql, DtypesText(o, df)).Returned? {
          var code := o.generatePlotlyCode(question, sql, DtypesText(o, df)).value;
          SetKeepsWellTyped(c, id, "plotly_code", Text(code));
          RenderFigureKeepsShapes(Set(c, id, "plotly_code", Text(code)), o, id, df, Text(code), [PlotlyCodeCall(question, sql, DtypesText(o, df))], false);
        }
      } else {
        var asked := Text(InstructedQuestion(Str(o, question), instructions.value));
        if o.generatePlotlyCode(asked, sql, DtypesText(o, df)).Returned? {
          var code := o.generatePlotlyCode(asked, sql, DtypesText(o, df)).value;
          var c1 := Set(c, id, "plotly_code", Text(code));
          SetKeepsWellTyped(c, id, "plotly_code", Text(code));
          SetKeepsWellTyped(c1, id, "chart_instructions", Text(instructions.value));
          var c' := Set(c1, id, "chart_instructions", Text(instructions.value));
          RenderFigureKeepsShapes(c', o, id, df, Text(code), [PlotlyCodeCall(asked, sql, DtypesText(o, df))], true);
        }
      }
    }
  }

  lemma RenderFigureKeepsShapes(c: Cache, o: Oracles, id: string, df: Value, code: Value, calls: seq<Call>, applied: bool)
    requires WellTyped(c) && Valid(c)
    ensures var r := RenderFigure(c, o, id, df, code, calls, applied); WellTyped(r.cache) && Valid(r.cache)
  {
    if o.getPlotlyFigure(code, df).Returned? {
      SetKeepsWellTyped(c, id, "fig_json", Text(o.getPlotlyFigure(code, df).value));
    }
  }
}
