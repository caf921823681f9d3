/**
  The structured-query tools of `app/services/tools.py`: the allow-list check of the four
  row-level-security values, the execution of one generated SQL statement and the classification
  of its result into a JSON payload, and the schema (DDL) lookup.
  The database is an oracle: `set_config`, the query itself and the RLS-bypassing shadow count
  are functions of their inputs that either answer or raise.
*/
module SqlTool {
  import opened Outcomes
  import opened Text
  import opened Json
  import opened PyDict

  // ---------------------------------------------------------------------------
  // validate_security_context

  predicate IsContextChar(c: char) {
    'a' <= c <= 'z' || 'A' <= c <= 'Z' || '0' <= c <= '9' || c == '_' || c == '-'
  }

  predicate AllContextChars(s: string) {
    forall k :: 0 <= k < |s| ==> IsContextChar(s[k])
  }

  /** The greedy run of `[a-zA-Z0-9_\-]` at the start of `s`. */
  function ContextRun(s: string): (r: string)
    ensures r <= s && AllContextChars(r)
    ensures |r| < |s| ==> !IsContextChar(s[|r|])
  {
    if |s| > 0 && IsContextChar(s[0]) then [s[0]] + ContextRun(s[1..]) else ""
  }

  /**
    `re.match(r"^[a-zA-Z0-9_\-]+$", s)` succeeds: the greedy run is non-empty and is followed by
    the end of the text, or by a newline that is the last character (Python's `$`).
  */
  predicate MatchesContextPattern(s: string) {
    var run := ContextRun(s);
    |run| >= 1 && (|run| == |s| || (|s| == |run| + 1 && s[|run|] == '\n'))
  }

  const SecurityAlertPrefix := "Security" + " Alert: " + "Invalid " + "context " + "value " + "detected" + " -> "

  lemma ContextRunAll(s: string)
    requires AllContextChars(s)
    ensures ContextRun(s) == s
  {
  }

  /** The pattern accepts exactly the allowed runs, bare or followed by one final newline. */
  lemma ContextPatternIff(value: string)
    ensures MatchesContextPattern(value) <==>
      (|value| >= 1 && AllContextChars(value))
      || (|value| >= 2 && value[|value| - 1] == '\n' && AllContextChars(value[..|value| - 1]))
  {
    if |value| >= 1 && AllContextChars(value) {
      ContextRunAll(value);
    }
    if |value| >= 2 && value[|value| - 1] == '\n' && AllContextChars(value[..|value| - 1]) {
      var t := value[..|value| - 1];
      ContextRunAll(t);
    }
    if MatchesContextPattern(value) {
      var r := ContextRun(value);
      if |r| < |value| {
        assert value[..|value| - 1] == r;
      } else {
        assert value == r;
      }
    }
  }

  /**
    `validate_security_context`: the value itself when it is a non-empty run of ASCII letters,
    digits, `_` and `-` (optionally followed by one final newline, which `$` lets through), and
    the `ValueError` message otherwise.
  */
  function ValidateSecurityContext(value: string): (r: Result<string, string>)
    ensures r.Ok? <==>
      (|value| >= 1 && AllContextChars(value))
      || (|value| >= 2 && value[|value| - 1] == '\n' && AllContextChars(value[..|value| - 1]))
    ensures r.Ok? ==> r.value == value
    ensures r.Err? ==> r.error == SecurityAlertPrefix + value
  {
    ContextPatternIff(value);
    if MatchesContextPattern(value) then Ok(value) else Err(SecurityAlertPrefix + value)
  }

  /** The value the first failing check reports, in the order the four values are checked. */
  function FirstInvalid(values: seq<string>): (r: Option<string>)
    ensures r.None? <==> forall k :: 0 <= k < |values| ==> ValidateSecurityContext(values[k]).Ok?
    ensures r.Some? ==> r.value in values && ValidateSecurityContext(r.value).Err?
  {
    if |values| == 0 then None
    else if ValidateSecurityContext(values[0]).Err? then Some(values[0])
    else
      var rest := FirstInvalid(values[1..]);
      assert forall k :: 1 <= k < |values| ==> values[k] == values[1..][k - 1];
      rest
  }

  // ---------------------------------------------------------------------------
  // result cells, rows and their JSON rendering

  /** A value of a result row, as `json.dumps(..., default=str)` renders it. */
  datatype Cell =
    | CText(text: string)
    | CInt(number: int)
    | CBool(flag: bool)
    | CNull
    | CFloat(repr: string)   // a float, written as its Python repr
    | COther(str: string)    // a date, Decimal, ...: written as str(v) by default=str

  datatype Table = Table(columns: seq<string>, rows: seq<seq<Cell>>)

  function RenderCell(c: Cell): string {
    match c
    case CText(s) => Quote(s)
    case CInt(i) => IntToString(i)
    case CBool(b) => if b then "true" else "false"
    case CNull => "null"
    case CFloat(r) => r
    case COther(s) => Quote(s)
  }

  /** `dict(zip(columns, row))`: zip stops at the shorter list, and a repeated column keeps its last value. */
  function Record(columns: seq<string>, row: seq<Cell>): Dict<string, Cell>
    decreases |columns|
  {
    if |columns| == 0 || |row| == 0 then []
    else
      var n := if |columns| < |row| then |columns| else |row|;
      Assign(Record(columns[..n - 1], row[..n - 1]), columns[n - 1], row[n - 1])
  }

  /** The record of a row maps each column to the row's value at the last position carrying that name. */
  lemma {:induction false} RecordLookup(columns: seq<string>, row: seq<Cell>, k: nat)
    requires k < |columns| && k < |row|
    requires forall j :: k < j < |columns| && j < |row| ==> columns[j] != columns[k]
    ensures Lookup(Record(columns, row), columns[k]) == Some(row[k])
    decreases |columns|
  {
    var n := if |columns| < |row| then |columns| else |row|;
    AssignLookup(Record(columns[..n - 1], row[..n - 1]), columns[n - 1], row[n - 1], columns[k]);
    if k < n - 1 {
      RecordLookup(columns[..n - 1], row[..n - 1], k);
    }
  }

  /** The record's keys are the zipped column names in order of first occurrence, each once. */
  lemma {:induction false} RecordKeys(columns: seq<string>, row: seq<Cell>)
    ensures var n := if |columns| < |row| then |columns| else |row|;
      Keys(Record(columns, row)) == Dedup(columns[..n])
    decreases |columns|
  {
    if |columns| > 0 && |row| > 0 {
      var n := if |columns| < |row| then |columns| else |row|;
      RecordKeys(columns[..n - 1], row[..n - 1]);
      AssignKeys(Record(columns[..n - 1], row[..n - 1]), columns[n - 1], row[n - 1]);
      assert columns[..n][..n - 1] == columns[..n - 1][..n - 1];
    }
  }

  function RenderRecord(d: Dict<string, Cell>): string {
    "{" + Join(seq(|d|, i requires 0 <= i < |d| => Quote(d[i].0) + ": " + RenderCell(d[i].1)), ", ") + "}"
  }

  /** `json.dumps([dict(zip(columns, row)) for row in rows], ensure_ascii=False, default=str)`. */
  function RenderRows(t: Table): string {
    "[" + Join(seq(|t.rows|, i requires 0 <= i < |t.rows| => RenderRecord(Record(t.columns, t.rows[i]))), ", ") + "]"
  }

  // ---------------------------------------------------------------------------
  // execute_sql_query

  /** The row-level-security values put into the transaction with `set_config`. */
  datatype SecurityContext = SecurityContext(employee: string, dept: string, parentDept: string, rank: string)

  /** The statements sent to the database, in order. */
  datatype DbCall = SetConfig(ctx: SecurityContext) | RunQuery(sql: string) | ShadowCount(query: string)

  /**
    The database as seen from one transaction: each call answers or raises with a message.
    The main query runs under the row-level-security context; the shadow count bypasses it.
  */
  datatype SqlStore = SqlStore(
    setConfig: SecurityContext -> Option<string>,
    run: (SecurityContext, string) -> Result<Table, string>,
    shadowCount: string -> Result<int, string>)

  /** How one execution ended. */
  datatype SqlOutcome =
    | Rejected(value: string)   // a security-context value failed validation
    | Rows(table: Table)        // at least one row
    | Forbidden                 // no row visible, but rows exist without row-level security
    | NotFound                  // no row at all
    | EmptyNonSelect            // no row from a statement that is not a SELECT
    | Failed(message: string)   // an exception inside the transaction

  datatype QueryRun = QueryRun(outcome: SqlOutcome, calls: seq<DbCall>)

  const ForbiddenMessage := "데이터가 " + "존재하지만, " + "현재 사용자의 " + "권한(직급/부서)으로는 " + "접근할 수 " + "없습니다."
  const NotFoundMessage := "요청하신 " + "조건에 " + "부합하는 " + "데이터가 " + "시스템에 " + "존재하지 " + "않습니다."
  const ForbiddenPayload := StatusPayload("forbidden", ForbiddenMessage)
  const NotFoundPayload := StatusPayload("not_found", NotFoundMessage)
  const ExecutionErrorPrefix := "SQL Execution " + "Error:" + " "

  /** `sql.strip().upper().startswith("SELECT")`. */
  predicate IsSelect(sql: string) {
    "SELECT" <= UpperAscii(Strip(sql))
  }

  /** `sql.strip().rstrip(';')`: the statement handed to the shadow count. */
  function ShadowQuery(sql: string): string {
    RStripChar(Strip(sql), ';')
  }

  /** `json.dumps({"status": status, "message": message}, ensure_ascii=False)`. */
  function StatusPayload(status: string, message: string): string {
    Object2("status", status, "message", message)
  }

  /** The string `execute_sql_query` returns for an outcome. */
  function Payload(o: SqlOutcome): string {
    match o
    case Rejected(v) => StatusPayload("error", SecurityAlertPrefix + v)
    case Rows(t) => RenderRows(t)
    case Forbidden => ForbiddenPayload
    case NotFound => NotFoundPayload
    case EmptyNonSelect => "[]"
    case Failed(m) => StatusPayload("error", ExecutionErrorPrefix + m)
  }

  /**
    The outcome the database's answers call for once the security context is valid: a failing
    `set_config`, query or shadow count is that failure's message; rows that came back are the
    result; an empty non-SELECT is `[]`; an empty SELECT is forbidden when the shadow count is
    positive and not found otherwise.
  */
  predicate Answered(db: SqlStore, ctx: SecurityContext, sql: string, o: SqlOutcome) {
    && (db.setConfig(ctx).Some? ==> o == Failed(db.setConfig(ctx).value))
    && (db.setConfig(ctx).None? ==>
      && (db.run(ctx, sql).Err? ==> o == Failed(db.run(ctx, sql).error))
      && (db.run(ctx, sql).Ok? && |db.run(ctx, sql).value.rows| > 0 ==> o == Rows(db.run(ctx, sql).value))
      && (db.run(ctx, sql).Ok? && |db.run(ctx, sql).value.rows| == 0 && !IsSelect(sql) ==> o == EmptyNonSelect)
      && (db.run(ctx, sql).Ok? && |db.run(ctx, sql).value.rows| == 0 && IsSelect(sql) ==>
        && (db.shadowCount(ShadowQuery(sql)).Err? ==> o == Failed(db.shadowCount(ShadowQuery(sql)).error))
        && (db.shadowCount(ShadowQuery(sql)).Ok? && db.shadowCount(ShadowQuery(sql)).value > 0 ==> o == Forbidden)
        && (db.shadowCount(ShadowQuery(sql)).Ok? && db.shadowCount(ShadowQuery(sql)).value <= 0 ==> o == NotFound)))
  }

  /** The database's answers leave exactly one outcome, so the contract below fixes the result. */
  lemma AnsweredUnique(db: SqlStore, ctx: SecurityContext, sql: string, o1: SqlOutcome, o2: SqlOutcome)
    requires Answered(db, ctx, sql, o1) && Answered(db, ctx, sql, o2)
    ensures o1 == o2
  {
  }

  /**
    `execute_sql_query(sql, employee_id, department_code, parent_department, job_rank_id)`:
    the outcome and the statements sent to the database.
  */
  function ExecuteSqlQuery(db: SqlStore, sql: string, employee: string, dept: string, parentDept: string, rank: string): (r: QueryRun)
    // a rejected value is reported before any statement is sent
    ensures (r.calls == []) == FirstInvalid([employee, dept, parentDept, rank]).Some?
    ensures r.calls == [] ==> r.outcome == Rejected(FirstInvalid([employee, dept, parentDept, rank]).value)
    ensures r.calls != [] ==> r.calls[0] == SetConfig(SecurityContext(employee, dept, parentDept, rank))
    ensures |r.calls| <= 3 && (|r.calls| >= 2 ==> r.calls[1] == RunQuery(sql))
    // rows are returned as they came
    ensures r.outcome.Rows? ==>
      |r.outcome.table.rows| > 0 && db.run(SecurityContext(employee, dept, parentDept, rank), sql) == Ok(r.outcome.table)
    // an empty result is told apart by the shadow count, for SELECT statements only
    ensures |r.calls| == 3 <==> r.outcome.Forbidden? || r.outcome.NotFound? || (r.outcome.Failed? && |r.calls| == 3)
    ensures |r.calls| == 3 ==>
      IsSelect(sql) && r.calls[2] == ShadowCount(ShadowQuery(sql))
      && db.run(SecurityContext(employee, dept, parentDept, rank), sql).Ok?
      && |db.run(SecurityContext(employee, dept, parentDept, rank), sql).value.rows| == 0
    ensures r.outcome.Forbidden? <==> |r.calls| == 3 && db.shadowCount(ShadowQuery(sql)) .Ok? && db.shadowCount(ShadowQuery(sql)).value > 0
    ensures r.outcome.EmptyNonSelect? ==>
      !IsSelect(sql) && db.run(SecurityContext(employee, dept, parentDept, rank), sql).Ok?
      && |db.run(SecurityContext(employee, dept, parentDept, rank), sql).value.rows| == 0
    // and, from the database's answers, which outcome each path gives
    ensures FirstInvalid([employee, dept, parentDept, rank]).None? ==>
      Answered(db, SecurityContext(employee, dept, parentDept, rank), sql, r.outcome)
  {
    match FirstInvalid([employee, dept, parentDept, rank])
    case Some(v) => QueryRun(Rejected(v), [])
    case None =>
      var ctx := SecurityContext(employee, dept, parentDept, rank);
      match db.setConfig(ctx)
      case Some(e) => QueryRun(Failed(e), [SetConfig(ctx)])
      case None =>
        match db.run(ctx, sql)
        case Err(e) => QueryRun(Failed(e), [SetConfig(ctx), RunQuery(sql)])
        case Ok(t) =>
          if |t.rows| > 0 then QueryRun(Rows(t), [SetConfig(ctx), RunQuery(sql)])
          else if IsSelect(sql) then
            var calls := [SetConfig(ctx), RunQuery(sql), ShadowCount(ShadowQuery(sql))];
            match db.shadowCount(ShadowQuery(sql))
            case Err(e) => QueryRun(Failed(e), calls)
            case Ok(n) => if n > 0 then QueryRun(Forbidden, calls) else QueryRun(NotFound, calls)
          else QueryRun(EmptyNonSelect, [SetConfig(ctx), RunQuery(sql)])
  }

  // ---------------------------------------------------------------------------
  // the "Error:" marker the SQL agent retries on

  lemma StatusWithoutMarker(status: string, message: string)
    requires 'E' !in status && 'E' !in message
    ensures !Contains(StatusPayload(status, message), "Error:")
  {
    Object2Without('E', "status", status, "message", message);
    NotContainsWithoutHead(StatusPayload(status, message), "Error:");
  }

  /** A string containing `t` is `t` with something before and after it. */
  lemma ContainsSplit(s: string, t: string) returns (a: string, b: string)
    requires Contains(s, t)
    ensures s == a + t + b
  {
    ContainsIff(s, t);
    var i :| OccursAt(s, t, i);
    a, b := s[..i], s[i + |t|..];
    assert s == s[..i] + s[i..i + |t|] + s[i + |t|..];
  }

  /** A message carrying `Error:` keeps it in the error payload, since the marker needs no escaping. */
  lemma StatusKeepsMarker(status: string, message: string)
    requires Contains(message, "Error:")
    ensures Contains(StatusPayload(status, message), "Error:")
  {
    var a, b := ContainsSplit(message, "Error:");
    Object2KeepsText("status", status, "message", a, "Error:", b);
  }

  /** Every exception inside the transaction yields a payload carrying the `Error:` marker. */
  lemma FailedCarriesMarker(m: string)
    ensures Contains(Payload(Failed(m)), "Error:")
  {
    var message := ExecutionErrorPrefix + m;
    ContainsMiddle("SQL Execution ", "Error:", " ");
    ContainsExtended(ExecutionErrorPrefix, m, "Error:");
    StatusKeepsMarker("error", message);
  }

  lemma ForbiddenLacksMarker()
    ensures !Contains(ForbiddenPayload, "Error:")
  {
    assert 'E' !in ForbiddenMessage;
    StatusWithoutMarker("forbidden", ForbiddenMessage);
  }

  lemma NotFoundLacksMarker()
    ensures !Contains(NotFoundPayload, "Error:")
  {
    assert 'E' !in NotFoundMessage;
    StatusWithoutMarker("not_found", NotFoundMessage);
  }

  /** The forbidden, not-found and empty answers never carry the marker. */
  lemma EmptyAnswersLackMarker(o: SqlOutcome)
    requires o.Forbidden? || o.NotFound? || o.EmptyNonSelect?
    ensures !Contains(Payload(o), "Error:")
  {
    if o.Forbidden? {
      ForbiddenLacksMarker();
    } else if o.NotFound? {
      NotFoundLacksMarker();
    } else {
      NotContainsWithoutHead("[]", "Error:");
    }
  }

  /** A rejected value without an `E` gives a payload without the marker: the validation message has no `E` of its own. */
  lemma RejectedLacksMarker(v: string)
    requires 'E' !in v
    ensures !Contains(Payload(Rejected(v)), "Error:")
  {
    AlertPrefixWithoutE();
    assert 'E' !in SecurityAlertPrefix + v;
    StatusWithoutMarker("error", SecurityAlertPrefix + v);
  }

  lemma AlertPrefixWithoutE()
    ensures 'E' !in SecurityAlertPrefix
  {
    assert 'E' !in "Security" && 'E' !in " Alert: " && 'E' !in "Invalid ";
    assert 'E' !in "context " && 'E' !in "value " && 'E' !in "detected" && 'E' !in " -> ";
  }

  /** A rejected value that brings the marker along puts it into the payload. */
  lemma RejectedKeepsMarker(v: string)
    requires Contains(v, "Error:")
    ensures Contains(Payload(Rejected(v)), "Error:")
  {
    ContainsPrefixed(SecurityAlertPrefix, v, "Error:");
    StatusKeepsMarker("error", SecurityAlertPrefix + v);
  }

  /** The status payloads read back as the status and message they were written with. */
  lemma StatusPayloadRoundTrip(status: string, message: string)
    ensures ReadObject2(StatusPayload(status, message), "status", "message") == Some((status, message))
  {
    Object2RoundTrip("status", status, "message", message);
  }

  // ---------------------------------------------------------------------------
  // search_schema_and_get_ddl

  /**
    `search_schema_and_get_ddl`: embeds the keywords, takes the DDL of the (at most) five nearest
    schema entries and joins them with a blank line. Neither the embedding nor the query is inside
    a `try`, so either failure propagates.
  */
  function SearchSchemaDdl(embed: string -> Result<Embedding, string>, nearest: Embedding -> Result<seq<string>, string>, keywords: string): (r: Result<string, string>)
    ensures embed(keywords).Err? ==> r == Err(embed(keywords).error)
    ensures embed(keywords).Ok? && nearest(embed(keywords).value).Err? ==> r == Err(nearest(embed(keywords).value).error)
    ensures r.Ok? ==>
      var rows := nearest(embed(keywords).value).value;
      r.value == Join(if |rows| <= 5 then rows else rows[..5], "\n\n")
  {
    match embed(keywords)
    case Err(e) => Err(e)
    case Ok(v) =>
      match nearest(v)
      case Err(e) => Err(e)
      case Ok(rows) => Ok(Join(if |rows| <= 5 then rows else rows[..5], "\n\n"))
  }
}
