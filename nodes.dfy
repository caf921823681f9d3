/**
  The four nodes of the agent graph (`app/graph/nodes.py`): the router, the SQL agent with its
  bounded self-correction loop, the document search and the answer generator, together with the
  schema-inventory text and the history formatting they share. Every language-model call is an
  oracle parameter; what is modelled is how the nodes build their inputs and read the outputs.
*/
module Nodes {
  import opened Outcomes
  import opened Text
  import opened Schemas
  import opened PySeq
  import SqlTool
  import DocSearch

  // ---------------------------------------------------------------------------
  // schema inventory

  /** One entry of the schema inventory file. */
  datatype SchemaItem = SchemaItem(tableName: string, columnList: seq<string>)

  const NoInventory := "정보 없음"

  function InventoryLine(item: SchemaItem): string {
    "- " + item.tableName + ": " + Join(item.columnList, ", ")
  }

  function InventoryLines(items: seq<SchemaItem>): seq<string> {
    seq(|items|, k requires 0 <= k < |items| => InventoryLine(items[k]))
  }

  /**
    The inventory text for the loaded file: one line per item. A file that cannot be opened,
    parsed or read (a missing key included) is an `Err` and gives the placeholder.
  */
  function InventoryText(loaded: Result<seq<SchemaItem>, string>): string {
    match loaded
    case Err(_) => NoInventory
    case Ok(items) => Join(InventoryLines(items), "\n")
  }

  /** `get_schema_inventory_text`. */
  method SchemaInventoryText(loaded: Result<seq<SchemaItem>, string>) returns (text: string)
    ensures text == InventoryText(loaded)
  {
    if loaded.Err? {
      return NoInventory;
    }
    var items := loaded.value;
    var lines: seq<string> := [];
    for i := 0 to |items|
      invariant lines == InventoryLines(items[..i])
    {
      lines := lines + [InventoryLine(items[i])];
    }
    assert items[..|items|] == items;
    text := Join(lines, "\n");
  }

  /**
    The inventory text splits back into one line per item when no name holds a line break; an
    empty inventory gives the empty text, not the placeholder.
  */
  lemma InventoryReadBack(items: seq<SchemaItem>)
    requires forall k :: 0 <= k < |items| ==> '\n' !in items[k].tableName
    requires forall k, j :: 0 <= k < |items| && 0 <= j < |items[k].columnList| ==> '\n' !in items[k].columnList[j]
    ensures |items| > 0 ==> Split(InventoryText(Ok(items)), '\n') == InventoryLines(items)
    ensures |items| == 0 ==> InventoryText(Ok(items)) == "" != NoInventory
  {
    var lines := InventoryLines(items);
    forall k | 0 <= k < |lines|
      ensures '\n' !in lines[k]
    {
      JoinWithout(items[k].columnList, ", ", '\n');
    }
    if |items| > 0 {
      SplitJoin(lines, '\n');
    }
  }

  // ---------------------------------------------------------------------------
  // conversation history in prompts

  const UserLabel := "이전 질문"
  const AnswerLabel := "이전 답변"

  /** A turn as a prompt line: the role `user` is labelled as a question, every other role as an answer. */
  function TurnLine(t: Turn): string {
    (if t.role == "user" then UserLabel else AnswerLabel) + ": " + t.content
  }

  function TurnLines(turns: seq<Turn>): seq<string> {
    seq(|turns|, k requires 0 <= k < |turns| => TurnLine(turns[k]))
  }

  function HistoryText(turns: seq<Turn>): string {
    Join(TurnLines(turns), "\n")
  }

  /** The formatting loop shared by the three nodes. */
  method FormatHistory(turns: seq<Turn>) returns (text: string)
    ensures text == HistoryText(turns)
  {
    var formatted: seq<string> := [];
    for i := 0 to |turns|
      invariant formatted == TurnLines(turns[..i])
    {
      formatted := formatted + [TurnLine(turns[i])];
    }
    assert turns[..|turns|] == turns;
    text := Join(formatted, "\n");
  }

  /** Reads a prompt line back: whether it was a user turn, and its content. */
  function ReadTurnLine(line: string): Option<(bool, string)> {
    if UserLabel + ": " <= line then Some((true, line[|UserLabel| + 2..]))
    else if AnswerLabel + ": " <= line then Some((false, line[|AnswerLabel| + 2..]))
    else None
  }

  lemma TurnLineRoundTrip(t: Turn)
    ensures ReadTurnLine(TurnLine(t)) == Some((t.role == "user", t.content))
  {
    var line := TurnLine(t);
    if t.role == "user" {
      assert line == (UserLabel + ": ") + t.content;
    } else {
      assert line == (AnswerLabel + ": ") + t.content;
      assert !(UserLabel + ": " <= line) by {
        assert line[3] != (UserLabel + ": ")[3];
      }
    }
  }

  /** When no content holds a line break, the history text reads back turn by turn. */
  lemma HistoryReadBack(turns: seq<Turn>)
    requires |turns| > 0
    requires forall k :: 0 <= k < |turns| ==> '\n' !in turns[k].content
    ensures |Split(HistoryText(turns), '\n')| == |turns|
    ensures forall k :: 0 <= k < |turns| ==>
      ReadTurnLine(Split(HistoryText(turns), '\n')[k]) == Some((turns[k].role == "user", turns[k].content))
  {
    var lines := TurnLines(turns);
    forall k | 0 <= k < |lines|
      ensures '\n' !in lines[k]
    {
      assert lines[k] == (if turns[k].role == "user" then UserLabel else AnswerLabel) + ": " + turns[k].content;
    }
    SplitJoin(lines, '\n');
    forall k | 0 <= k < |turns|
      ensures ReadTurnLine(lines[k]) == Some((turns[k].role == "user", turns[k].content))
    {
      TurnLineRoundTrip(turns[k]);
    }
  }

  /** The history a windowed prompt shows is the tail of the full history the generator shows. */
  lemma WindowIsTail(h: seq<Turn>, n: nat)
    requires |h| > 0
    ensures EndsWith(HistoryText(h), HistoryText(LastN(h, n)))
  {
    var w := LastN(h, n);
    var k := |h| - |w|;
    JoinSuffix(TurnLines(h), k, "\n");
    assert TurnLines(h)[k..] == TurnLines(w);
  }

  // ---------------------------------------------------------------------------
  // router_node

  const NoFileAttached := "첨부 파일 없음"

  /** `bool(file_content and file_content.strip())`. */
  predicate IsFileUploaded(fileContext: string) {
    Strip(fileContext) != ""
  }

  /** A file counts as uploaded exactly when its text has a character that is not whitespace. */
  lemma FileFlagIff(fileContext: string)
    ensures IsFileUploaded(fileContext) <==> exists k :: 0 <= k < |fileContext| && !IsPyWhitespace(fileContext[k])
  {
    StripEmptyIff(fileContext);
  }

  /** The variables of the router prompt. */
  datatype RouterPrompt = RouterPrompt(
    question: string, schemaContext: string, fileContext: string, isFileUploaded: bool, lastHistory: string)

  function RouterPromptFor(state: AgentState, inventory: string): RouterPrompt {
    var uploaded := IsFileUploaded(state.fileContext);
    RouterPrompt(state.question, inventory, if uploaded then state.fileContext else NoFileAttached,
                 uploaded, HistoryText(LastN(state.history, 2)))
  }

  /** What the router model answers, before the `intent` field is validated. */
  datatype RawRouterOutput = RawRouterOutput(intent: string, sqlKeywords: seq<string>, vectorQuery: string)

  /** The state update of the router: `intent`, `optimized_sql_keywords`, `optimized_vector_query`. */
  datatype RouterUpdate = RouterUpdate(intent: Intent, optimizedSqlKeywords: seq<string>, optimizedVectorQuery: string)

  /**
    `router_node`. The model's failure, and an intent outside `rdb`/`vector`/`both` (the prompt's
    `other` included), reject the structured output and end the run (`Err`).
  */
  method RouterNode(llm: RouterPrompt -> Result<RawRouterOutput, string>, loaded: Result<seq<SchemaItem>, string>,
                    state: AgentState)
    returns (r: Result<RouterUpdate, string>)
    ensures var out := llm(RouterPromptFor(state, InventoryText(loaded)));
      && (out.Err? ==> r == Err(out.error))
      && (r.Ok? <==> out.Ok? && ParseIntent(out.value.intent).Some?)
      && (r.Ok? ==>
            IntentName(r.value.intent) == out.value.intent
            && r.value.optimizedSqlKeywords == out.value.sqlKeywords
            && r.value.optimizedVectorQuery == out.value.vectorQuery)
  {
    var inventory := SchemaInventoryText(loaded);
    var uploaded := IsFileUploaded(state.fileContext);
    var lastHistory := FormatHistory(LastN(state.history, 2));
    var prompt := RouterPrompt(state.question, inventory, if uploaded then state.fileContext else NoFileAttached,
                               uploaded, lastHistory);
    var out := llm(prompt);
    if out.Err? {
      return Err(out.error);
    }
    match ParseIntent(out.value.intent)
    case None =>
      r := Err("intent: " + out.value.intent);
    case Some(intent) =>
      r := Ok(RouterUpdate(intent, out.value.sqlKeywords, out.value.vectorQuery));
  }

  // ---------------------------------------------------------------------------
  // sql_agent_node

  const MaxRetries := 3
  const ErrorMarker := "Error:"
  const SqlFailure := "SQL 실행 실패. 관리자에게 문의하세요."

  /** The retry section of the prompt: empty before the first error, otherwise it quotes the last error. */
  function RetryMessage(lastError: string): string {
    if lastError == "" then ""
    else RetryHeader + lastError + RetryFooter
  }

  const RetryHeader := "\n\n[이전 쿼리 에러 보고]\n"
  const RetryFooter := "\n위 에러를 분석하여 동일한 실수를 반복하지 마세요."

  /** The `last_error` text recorded after a failing attempt. */
  const QueryLabel := "쿼리: "
  const ErrorLabel := " \n에러 메시지: "

  function LastError(sql: string, result: string): string {
    QueryLabel + sql + ErrorLabel + result
  }

  /** The variables of the SQL prompt. */
  datatype SqlPrompt = SqlPrompt(
    employeeId: string, jobRankId: string, departmentCode: string, parentDepartment: string,
    companyEmail: string, schemaContext: string, ddlContext: string, retryMsg: string,
    question: string, lastHistory: string)

  function SqlPromptFor(state: AgentState, inventory: string, ddl: string, retryMsg: string): SqlPrompt {
    SqlPrompt(state.employeeId, state.jobRankId, state.departmentCode, state.parentDepartment,
              state.companyEmail, inventory, ddl, retryMsg, state.question, HistoryText(LastN(state.history, 4)))
  }

  /** The text `execute_sql_query` returns for the generated statement, with the state's security context. */
  function RunSql(db: SqlTool.SqlStore, state: AgentState, sql: string): string {
    SqlTool.Payload(SqlTool.ExecuteSqlQuery(db, sql, state.employeeId, state.departmentCode,
                                             state.parentDepartment, state.jobRankId).outcome)
  }

  /** `RunSql` for one database and state, as the runner the retry loop calls. */
  function Runner(db: SqlTool.SqlStore, state: AgentState): string -> string {
    sql => RunSql(db, state, sql)
  }

  /**
    The services the agent uses: the embedding and nearest-DDL lookup of `search_schema_and_get_ddl`,
    the SQL model (called with the attempt number and the prompt) and the database.
  */
  datatype SqlOracles = SqlOracles(
    embed: string -> Result<Embedding, string>,
    nearest: Embedding -> Result<seq<string>, string>,
    generate: (nat, SqlPrompt) -> Result<string, string>,
    db: SqlTool.SqlStore)

  /** One pass of the loop: the retry section it sent, the statement it got and the text that statement gave. */
  datatype Attempt = Attempt(retryMsg: string, sql: string, result: string)

  /** The state update of the SQL agent: `rdb_result` and, on success, `generated_sql`. */
  datatype SqlUpdate = SqlUpdate(rdbResult: string, generatedSql: Option<string>)

  function Ddl(o: SqlOracles, state: AgentState): Result<string, string> {
    SqlTool.SearchSchemaDdl(o.embed, o.nearest, Join(state.sqlKeywords, " "))
  }

  /** The retry section that follows a list of attempts. */
  function NextRetry(attempts: seq<Attempt>): string {
    if |attempts| == 0 then ""
    else RetryMessage(LastError(attempts[|attempts| - 1].sql, attempts[|attempts| - 1].result))
  }

  /**
    What the self-correction loop of `sql_agent_node` promises, for a model `generate`, a statement
    runner `exec` and a base prompt: at most three attempts; each one after the first quotes exactly
    the statement and result of the one before (`last_error` is overwritten, not accumulated); every
    attempt but the last got a result with the `Error:` marker; a result without the marker ends
    the loop and is returned with its statement; after three marked results the update is the fixed
    failure message with no statement; a failing model call ends the node (`Err`).
  */
  predicate Retried(generate: (nat, SqlPrompt) -> Result<string, string>, exec: string -> string, base: SqlPrompt,
                    r: Result<SqlUpdate, string>, attempts: seq<Attempt>)
  {
    && |attempts| <= MaxRetries
    && Tried(generate, exec, base, attempts)
    && (forall k :: 0 <= k < |attempts| - 1 ==> Contains(attempts[k].result, ErrorMarker))
    && (r.Ok? ==> |attempts| > 0)
    && (r.Ok? && !Contains(attempts[|attempts| - 1].result, ErrorMarker) ==>
         r.value == SqlUpdate(attempts[|attempts| - 1].result, Some(attempts[|attempts| - 1].sql)))
    && (r.Ok? && Contains(attempts[|attempts| - 1].result, ErrorMarker) ==>
         |attempts| == MaxRetries && r.value == SqlUpdate(SqlFailure, None))
    && (r.Err? ==> |attempts| < MaxRetries && generate(|attempts|, base.(retryMsg := NextRetry(attempts))) == Err(r.error))
  }

  /**
    The attempts made so far: the first prompt carries no retry section, each later one quotes the
    statement and result of the attempt before it, each statement is what the model answered to
    its prompt and each result what running it gave.
  */
  predicate Tried(generate: (nat, SqlPrompt) -> Result<string, string>, exec: string -> string, base: SqlPrompt,
                  attempts: seq<Attempt>)
  {
    && (|attempts| > 0 ==> attempts[0].retryMsg == "")
    && (forall k :: 0 < k < |attempts| ==>
         attempts[k].retryMsg == RetryMessage(LastError(attempts[k - 1].sql, attempts[k - 1].result)))
    && (forall k :: 0 <= k < |attempts| ==>
         attempts[k].result == exec(attempts[k].sql) && generate(k, base.(retryMsg := attempts[k].retryMsg)) == Ok(attempts[k].sql))
  }

  /** One more attempt, prompted with the retry section the previous ones call for, extends the record. */
  lemma TriedSnoc(generate: (nat, SqlPrompt) -> Result<string, string>, exec: string -> string, base: SqlPrompt,
                  attempts: seq<Attempt>, a: Attempt)
    requires Tried(generate, exec, base, attempts)
    requires a.retryMsg == NextRetry(attempts) && a.result == exec(a.sql)
    requires generate(|attempts|, base.(retryMsg := a.retryMsg)) == Ok(a.sql)
    ensures Tried(generate, exec, base, attempts + [a])
  {
    var s := attempts + [a];
    forall k | 0 < k < |s|
      ensures s[k].retryMsg == RetryMessage(LastError(s[k - 1].sql, s[k - 1].result))
    {
      if k < |attempts| {
        assert s[k] == attempts[k] && s[k - 1] == attempts[k - 1];
      } else {
        assert s[k - 1] == attempts[|attempts| - 1];
      }
    }
  }

  /** The self-correction loop of `sql_agent_node`. */
  method RetryLoop(generate: (nat, SqlPrompt) -> Result<string, string>, exec: string -> string, base: SqlPrompt)
    returns (r: Result<SqlUpdate, string>, attempts: seq<Attempt>)
    ensures Retried(generate, exec, base, r, attempts)
  {
    attempts := [];
    var lastError := "";
    var i := 0;
    while i < MaxRetries
      invariant 0 <= i <= MaxRetries && |attempts| == i
      invariant RetryMessage(lastError) == NextRetry(attempts)
      invariant Tried(generate, exec, base, attempts)
      invariant forall k :: 0 <= k < i ==> Contains(attempts[k].result, ErrorMarker)
    {
      var retryMsg := RetryMessage(lastError);
      var response := generate(i, base.(retryMsg := retryMsg));
      if response.Err? {
        return Err(response.error), attempts;
      }
      var sql := response.value;
      var result := exec(sql);
      TriedSnoc(generate, exec, base, attempts, Attempt(retryMsg, sql, result));
      attempts := attempts + [Attempt(retryMsg, sql, result)];
      if !Contains(result, ErrorMarker) {
        return Ok(SqlUpdate(result, Some(sql))), attempts;
      }
      lastError := LastError(sql, result);
      i := i + 1;
    }
    r := Ok(SqlUpdate(SqlFailure, None));
  }

  /**
    `sql_agent_node`, with the attempts it made: the DDL of the tables nearest to the router's
    keywords (joined by spaces), the inventory and the last four turns go into every prompt, and
    every statement runs through `execute_sql_query` with the state's security context. A failing
    DDL lookup ends the node before any attempt.
  */
  method SqlAgentNode(o: SqlOracles, loaded: Result<seq<SchemaItem>, string>, state: AgentState)
    returns (r: Result<SqlUpdate, string>, attempts: seq<Attempt>)
    ensures Ddl(o, state).Err? ==> r == Err(Ddl(o, state).error) && attempts == []
    ensures Ddl(o, state).Ok? ==>
      Retried(o.generate, Runner(o.db, state), SqlPromptFor(state, InventoryText(loaded), Ddl(o, state).value, ""), r, attempts)
  {
    var ddl := Ddl(o, state);
    if ddl.Err? {
      return Err(ddl.error), [];
    }
    var inventory := SchemaInventoryText(loaded);
    var lastHistory := FormatHistory(LastN(state.history, 4));
    var base := SqlPrompt(state.employeeId, state.jobRankId, state.departmentCode, state.parentDepartment,
                          state.companyEmail, inventory, ddl.value, "", state.question, lastHistory);
    assert base == SqlPromptFor(state, inventory, ddl.value, "");
    r, attempts := RetryLoop(o.generate, Runner(o.db, state), base);
  }

  /**
    Which results make the agent try again: a failed execution always does; the forbidden, not-found
    and empty answers never do, and neither does a rejected value without an `E` in it.
  */
  lemma MarkerVerdict(db: SqlTool.SqlStore, state: AgentState, sql: string)
    ensures var o := SqlTool.ExecuteSqlQuery(db, sql, state.employeeId, state.departmentCode,
                                             state.parentDepartment, state.jobRankId).outcome;
      && (o.Failed? ==> Contains(RunSql(db, state, sql), ErrorMarker))
      && (o.Forbidden? || o.NotFound? || o.EmptyNonSelect? ==> !Contains(RunSql(db, state, sql), ErrorMarker))
      && (o.Rejected? && 'E' !in o.value ==> !Contains(RunSql(db, state, sql), ErrorMarker))
  {
    var o := SqlTool.ExecuteSqlQuery(db, sql, state.employeeId, state.departmentCode,
                                     state.parentDepartment, state.jobRankId).outcome;
    if o.Failed? {
      SqlTool.FailedCarriesMarker(o.message);
    } else if o.Forbidden? || o.NotFound? || o.EmptyNonSelect? {
      SqlTool.EmptyAnswersLackMarker(o);
    } else if o.Rejected? && 'E' !in o.value {
      SqlTool.RejectedLacksMarker(o.value);
    }
  }

  // ---------------------------------------------------------------------------
  // vector_search_node

  /** `vector_search_node`: searches with the router's query and keywords and stores the answer as `vector_result`. */
  method VectorSearchNode(embed: string -> Result<Embedding, string>, db: DocSearch.DocStore, state: AgentState)
    returns (r: Result<string, string>)
    ensures r == DocSearch.Search(embed, db, state.vectorQuery, state.sqlKeywords)
  {
    r := DocSearch.HybridVectorSearch(embed, db, state.vectorQuery, state.departmentCode, state.sqlKeywords);
  }

  // ---------------------------------------------------------------------------
  // generator_node

  datatype Model = Gpt4o | Gpt4oMini

  const LargeContext := 15000
  const NoRdbData := "조회된 데이터 없음"
  const NoVectorData := "관련 규정 못 찾음"
  const NoUploadedFile := "사용자 업로드 파일 없음"

  /** `state.get(key, "")`: a result no node has written reads as the empty text. */
  function OrEmpty(x: Option<string>): string {
    match x
    case None => ""
    case Some(s) => s
  }

  /** `len(str(rdb_data)) + len(str(vector_data))`. */
  function ContextLength(state: AgentState): nat {
    |OrEmpty(state.rdbResult)| + |OrEmpty(state.vectorResult)|
  }

  function ChooseModel(state: AgentState): Model {
    if ContextLength(state) > LargeContext then Gpt4o else Gpt4oMini
  }

  /** The larger model is kept for every state with at least as much retrieved text; exactly 15000 characters still gets the smaller one. */
  lemma ModelChoiceMonotone(s1: AgentState, s2: AgentState)
    requires ContextLength(s1) <= ContextLength(s2)
    ensures ChooseModel(s1) == Gpt4o ==> ChooseModel(s2) == Gpt4o
    ensures ContextLength(s2) == LargeContext ==> ChooseModel(s2) == Gpt4oMini
  {
  }

  /** The variables of the generator prompt. */
  datatype GeneratorPrompt = GeneratorPrompt(rdb: string, vector: string, file: string, history: string, question: string)

  function OrFallback(s: string, fallback: string): string {
    if s != "" then s else fallback
  }

  function GeneratorPromptFor(state: AgentState, history: string): GeneratorPrompt {
    GeneratorPrompt(OrFallback(OrEmpty(state.rdbResult), NoRdbData), OrFallback(OrEmpty(state.vectorResult), NoVectorData),
                    OrFallback(state.fileContext, NoUploadedFile), history, state.question)
  }

  /** No prompt section is ever blank: each one shows its data, or its fallback sentence when the data is empty. */
  lemma PromptSectionsFilled(state: AgentState, history: string)
    ensures var p := GeneratorPromptFor(state, history);
      && p.rdb != "" && p.vector != "" && p.file != ""
      && (OrEmpty(state.rdbResult) != "" ==> p.rdb == state.rdbResult.value)
      && (OrEmpty(state.vectorResult) != "" ==> p.vector == state.vectorResult.value)
      && (state.fileContext != "" ==> p.file == state.fileContext)
  {
    assert |NoRdbData| > 0 && |NoVectorData| > 0 && |NoUploadedFile| > 0;
  }

  /**
    `generator_node`: picks the model by context length, prompts it with the whole history, and
    answers with the in-order concatenation of the streamed chunks. A failing stream ends the node.
  */
  method GeneratorNode(stream: (Model, GeneratorPrompt) -> Result<seq<string>, string>, state: AgentState)
    returns (r: Result<string, string>, model: Model)
    ensures model == ChooseModel(state)
    ensures var out := stream(model, GeneratorPromptFor(state, HistoryText(state.history)));
      && (out.Err? ==> r == Err(out.error))
      && (out.Ok? ==> r == Ok(Concat(out.value)) && |r.value| == TotalLength(out.value))
  {
    model := if ContextLength(state) > LargeContext then Gpt4o else Gpt4oMini;
    var fullHistory := FormatHistory(state.history);
    var out := stream(model, GeneratorPromptFor(state, fullHistory));
    if out.Err? {
      return Err(out.error), model;
    }
    var chunks := out.value;
    var fullContent := "";
    for i := 0 to |chunks|
      invariant fullContent == Concat(chunks[..i])
    {
      ConcatSnoc(chunks[..i], chunks[i]);
      assert chunks[..i + 1] == chunks[..i] + [chunks[i]];
      fullContent := fullContent + chunks[i];
    }
    assert chunks[..|chunks|] == chunks;
    ConcatLength(chunks);
    r := Ok(fullContent);
  }
}
