# Deep Nexus request-handling core, in Dafny

Deep Nexus answers employees' natural-language questions. A `/chat` request goes through these steps:

1. The request form is validated. An uploaded file is turned into text.
2. The semantic cache is consulted. A close-enough earlier question short-circuits the request with its cached answer.
3. Otherwise the per-session conversation memory is read and a LangGraph workflow runs:
   - a **router** classifies the question as `rdb`, `vector` or `both`;
   - the **SQL agent** generates a query, runs it under row-level-security settings and corrects itself up to three times;
   - the **hybrid document search** merges a dense and a keyword search, reranks the hits and formats the best three;
   - the **generator** streams the final answer.
4. The generator's tokens are streamed to the client.
5. Once the stream ends, background tasks cache the answer and push the exchange onto the conversation memory.

Around this request path, the project models:

- the access-token gate applied to every request;
- the upload parser;
- the member service: employee ids, sign-up, login and token refresh;
- the meeting-room reservation service.

## How the system is modelled

- Each Python module becomes one Dafny module.
- Pure computations (formatting, parsing, routing, payload construction, the security-context check) become functions, with lemmas about them.
- Code that updates state becomes classes whose methods state the whole new state:
  - the Redis store and its commands;
  - the conversation-memory and semantic-cache managers;
  - the LangGraph builder;
  - the reservation and employee tables.
- Loops in the source become `while`/`for` loops with invariants, each proved against a specification function:
  - the SQL retry loop;
  - the page loop of the PDF reader;
  - the day loop of the monthly calendar;
  - the merge and sort loops of the hybrid search;
  - the token loop of the stream.
- Every external service is an oracle parameter: the language models, the embedding model, the reranker, PostgreSQL, the Redis search module, the PDF reader, the text decoders, bcrypt, JWT and Python's salted `hash()`.
- Raised exceptions are `Err` values of a `Result`. `None` is `Option.None`.

Python semantics the code relies on are written out in the helper modules:

- `Text`: `split`, `strip`, `zfill`, `str(int)`, `int(...)`, `re.search(r'\d+')`, string order and the `in` substring test.
- `Json`: `json.dumps` string escaping and a strict reader for the two-key objects.
- `PyDict`: insertion-ordered dicts in which a later assignment overwrites the value in place.
- `PySeq`: negative slices and `reversed`.

The code disagrees with itself in one place, and the model follows what it does:

- The router's prompt (app/graph/nodes.py:63-65) tells the language model to answer `other` for questions about an uploaded file. But the structured-output type (app/schemas/model.py:31) admits only `rdb`, `vector` and `both`. An `other` answer therefore fails validation and ends the run (`Nodes.RouterNode`, `Schemas.ParseIntentExact`). `route_decision`'s fallback to the generator is unreachable for any answer the router can produce (`Workflow.RouteByIntent`, `Workflow.RouteOtherwise`).

Behaviour of the code as written that the model keeps on purpose:

- The SQL agent retries whenever the result text contains `Error:`. So a successful result whose rows contain that text is retried. So is a rejected security-context value that contains it (`Nodes.MarkerVerdict`, `SqlTool.RejectedKeepsMarker`).
- The security-context pattern uses `re.match` with `$`, which also accepts a single trailing newline (`SqlTool.ValidateSecurityContext`).
- A conversation window of 0 trims with `LTRIM key 0 -1`, which keeps the whole list (`Memory.PushedWindow`).
- A cache hit at distance exactly 0.1 is a miss (`SemanticCache.AnswerOnlyBelowThreshold`).
- `hybrid_vector_search` accepts `department_code` and does not use it.

## Model

| member | source | states |
|---|---|---|
| Chat.GraphInputs | app/main.py:148-157 | the graph starts from the request's question, employee id, row-level-security values (job rank, department, parent department) and company email, the parsed file text (empty without a file) and the history read from memory, with every node output still unset |
| Chat.EventGenerator | app/main.py:143-238 | the client receives exactly the generator's non-empty model tokens in event order; the answer is their concatenation; the three background tasks are scheduled only after a run that did not raise, and only for a non-empty answer |
| Chat.ChunksMeaning | app/main.py:198-212 | a chunk is streamed if and only if it is the content of a non-empty `on_chat_model_stream` token from the generator node; no chunk is empty; the stream is empty exactly when no such event occurred |
| Chat.TasksOnlyAfterStreaming | app/main.py:209-238 | the answer is empty exactly when nothing was streamed, so background tasks exist if and only if some token was streamed |
| Chat.ChatEndpoint | app/main.py:107-241 | an unparsable form is a 422 with the parser's message; a non-empty cache hit is the whole one-chunk stream and schedules nothing; an undecodable history is a 500; otherwise the stream, its completion and the tasks are those of the graph run on the request, file text and history |
| Chat.RecordExchange | app/main.py:221-238 | running the three background tasks caches the answer under the query's key (unless embedding or the pipeline fails), pushes the question and then the answer onto the session's list within the window, and sets both expiries; search indexes are untouched |
| Chat.PushTurns | app/main.py:227-238 | the two `add_message` tasks push both turns in order onto the session's list and reset its expiry, leaving every other list, every hash and the indexes as they were |
| Chat.ReadEndsWithPushes | app/services/memory.py:10-25 | with a window of at least two, the oldest-first read after two pushes ends with the two pushed entries in push order |
| Chat.NextHistoryEndsWithExchange | app/main.py:227-238 | with a window of at least two, the next successful history read ends with the question turn followed by the answer turn just recorded |
| Dependencies.StripBearerPrefixed | app/core/dependencies.py:36-38 | a token sent as `Bearer ` plus a rest becomes the rest's first space-separated field |
| Dependencies.StripBearerMeaning | app/core/dependencies.py:36-38 | a prefixed token without further spaces becomes exactly the bare token; a token without the prefix is kept as sent |
| Dependencies.CheckAccessToken | app/core/dependencies.py:10-45 | whitelisted paths always pass; elsewhere a missing or empty header is a 401 with the login message; otherwise the request passes exactly when the validator accepts the stripped token, and a rejection carries the validator's own error |
| Dependencies.ValidatorSeesBareToken | app/core/dependencies.py:30-42 | for a protected path and a token without spaces, sending it with or without `Bearer ` gives the same verdict as validating the bare token |
| FileParser.ParseUploadedFile | app/utils/file_parser.py:6-36 | the page loop and the branches compute the specified parse: unsupported names are refused, a failing reader or page gives the read-error text, a supported file gives the wrapped text |
| FileParser.PagesFailFrom | app/utils/file_parser.py:17-22 | once a prefix of the pages fails, the whole extraction fails with that same error, so the loop may stop at the first failing page |
| FileParser.PagesTextOkIff | app/utils/file_parser.py:19-22 | the extraction succeeds if and only if every page's text extraction succeeds |
| FileParser.PagesTextMeaning | app/utils/file_parser.py:19-20 | a successful extraction is every page's text followed by a newline, in page order |
| FileParser.PagesTextFirstError | app/utils/file_parser.py:19-22 | a failed extraction reports the error of the first failing page, all earlier pages having succeeded |
| FileParser.WrapReadBack | app/utils/file_parser.py:36 | the wrapped result starts with the header naming the file, ends with the footer rule, and the extracted text sits unchanged between them |
| FileParser.ParsedShape | app/utils/file_parser.py:10-36 | the result is never empty; it starts with a newline (is wrapped) exactly when the file kind is supported and extraction did not fail; an unsupported name gives the fixed refusal |
| FileParser.DispatchExamples | app/utils/file_parser.py:10-25 | the branch is chosen on the lower-cased name: `Report.PDF` is read as PDF and `notes.Txt` as text |
| Json.QuoteRoundTrip | app/services/memory.py:15-19 | `json.loads` reads back exactly the string `json.dumps` wrote, and stops right after it |
| Json.EscapeRoundTrip | app/services/memory.py:19 | an escaped string body followed by the closing quote decodes to the original text, for every character including quotes, backslashes and control characters |
| Json.Object2RoundTrip | app/services/memory.py:15-19 | a two-key object written by `json.dumps` reads back as the two values written into it |
| Json.Object2Without | app/services/tools.py:107-115 | a character absent from all four texts and not produced by escaping is absent from the JSON object |
| Json.Object2KeepsText | app/services/tools.py:123-124 | text that needs no escaping and occurs in the second value occurs in the JSON object as well |
| Meeting.OperatingHours | app/services/meeting_service.py:12 | the grid has eight hours, the k-th one being 8 + 2k |
| Meeting.OperatingHoursGrid | app/services/meeting_service.py:12 | an hour is in the grid if and only if it is even and between 8 and 22; the grid is strictly ascending |
| Meeting.ParseYearMonth | app/services/meeting_service.py:21-24 | a parsed year and month come from exactly two `-`-separated fields that `int()` accepts; every failure is the 400 with the format message |
| Meeting.ParseYearMonthRoundTrip | app/services/meeting_service.py:21-24 | the `YYYY-MM` part of a date key parses back to its year and month |
| Meeting.PyIntDigits | app/services/meeting_service.py:22 | `int()` reads a non-empty digit string as its decimal value |
| Meeting.Pad2RoundTrip | app/services/meeting_service.py:49 | a number below 100 is written as two digits that read back as the number |
| Meeting.MonthLengths | app/services/meeting_service.py:27 | months have 28 to 31 days, and February has 29 exactly in Gregorian leap years |
| Meeting.DateKeysDistinct | app/services/meeting_service.py:46-51 | different days of one month get different `%Y-%m-%d` keys |
| Meeting.MonthQueryHit | app/services/meeting_service.py:32-43 | a day of the month is among the distinct reserved dates the query returns if and only if the room has a reservation that day |
| Meeting.MonthEntriesStep | app/services/meeting_service.py:48-51 | the entries up to a day are those before it followed by that day's key and reserved flag |
| Meeting.MonthEntriesShape | app/services/meeting_service.py:46-53 | the monthly response has one entry per day of the month, under pairwise distinct keys |
| Meeting.HourMapMeaning | app/services/meeting_service.py:63-76 | an hour is in the hour map if and only if a joined reservation of that room and date starts at it, and it maps to the department name of the last such row |
| Meeting.DailyNamesTheBooker | app/services/meeting_service.py:76-90 | in a table without double bookings, the daily view names the department of the reservation holding that slot |
| Meeting.SurvivorsMeaning | app/services/meeting_service.py:143-157 | a row survives a delete if and only if it is not one of the employee's own reservations named in the request |
| Meeting.SurvivorsAllKept | app/services/meeting_service.py:143-153 | a delete that targets none of the rows keeps all of them, in order |
| Meeting.SurvivorsSameLength | app/services/meeting_service.py:143-153 | a delete that keeps every row targeted none of them |
| Meeting.AppendWellFormed | app/services/meeting_service.py:101-128 | inserting a row with a fresh id in a free slot keeps ids unique, below the sequence's next value, and every slot booked at most once |
| Meeting.SurvivorsWellFormed | app/services/meeting_service.py:155-159 | deleting rows keeps ids unique and every slot booked at most once |
| Meeting.ReservationTable.GetMonthlyStatus | app/services/meeting_service.py:15-53 | a malformed `YYYY-MM` is a 400; a month `monthrange`/`date` cannot handle is a 500; otherwise one entry per day telling whether the room is reserved that day |
| Meeting.ReservationTable.MonthDays | app/services/meeting_service.py:45-53 | the day loop produces the monthly entries, from the first to the last day |
| Meeting.ReservationTable.GetDailyStatus | app/services/meeting_service.py:56-92 | one item per operating hour, in order, taken exactly when the hour map has it and naming that department |
| Meeting.ReservationTable.CreateReservation | app/services/meeting_service.py:95-131 | a slot already taken is a 409 and nothing changes; otherwise the reservation is appended under the sequence's next id, which is returned and consumed; the table invariant is kept |
| Meeting.ReservationTable.DeleteReservation | app/services/meeting_service.py:134-161 | with none of the employee's listed reservations present nothing changes and the not-found message is returned; otherwise exactly those rows are removed and the count (at least one) is reported; the table invariant is kept |
| MemberService.FormatIdNumber | app/services/member.py:35-40 | the number carried by a formatted id is the number it was formatted from |
| MemberService.SuccessorOfFormatted | app/services/member.py:35-40 | the id after a formatted id is the formatted successor of its number |
| MemberService.SuccessorExamples | app/services/member.py:21-40 | `emp064` is followed by `emp065`, and `emp999` by `emp1000` |
| MemberService.AsWrittenRepeatsId | app/services/member.py:22-40 | with `emp999` and `emp1000` present, the generator as written picks `emp999` as the greatest id and hands out `emp1000`, which already exists |
| MemberService.MaxIdNumber | app/services/member.py:22-43 | the result bounds the number carried by every id |
| MemberService.NextIdFresh | app/services/member.py:22-43 | the corrected generator never returns an id that already exists |
| MemberService.CorrectedSkipsTakenId | app/services/member.py:21-43 | on the table `emp999`, `emp1000`, the numeric generator hands out `emp1001` where the string-order one repeats `emp1000` |
| MemberService.EmployeeTable.CreateEmployee | app/services/member.py:46-100 | with the generator as written: an email in use is a 400 and nothing changes; a greatest id (in string order) without digits gives the id-generation 500; a generated id that already exists breaks the primary key, so nothing changes and the sign-up 500 carries the database's error text; otherwise exactly one row is appended with the new id, the hashed password and today's hire date, and the id and name are returned; ids and emails stay unique |
| MemberService.LoginEmployee | app/services/member.py:108-153 | an unknown email and a wrong password are 401s with their own messages; a login succeeds if and only if the hash verifies, and then returns the member's information with a Bearer token pair made from it |
| MemberService.RefreshAccessToken | app/services/member.py:157-181 | a rejected token keeps the validator's error; a token of another employee is a 401; otherwise a new access token is made from the token's own claims |
| MemberService.LoginThenRefresh | app/services/member.py:108-181 | when the validator reads a refresh token back as its claims, the member who logged in can refresh with it and gets the access token of those claims, and anyone else presenting it is refused |
| Memory.ConversationMemoryManager.constructor | app/services/memory.py:5-8 | the manager keeps the Redis client and the window size it is given |
| Memory.ConversationMemoryManager.GetHistory | app/services/memory.py:10-15 | the history is the first `window_size` stored entries, reversed into oldest-first order and decoded, and fails if any entry does not decode |
| Memory.ConversationMemoryManager.AddMessage | app/services/memory.py:17-25 | the encoded turn is pushed in front of the session's list, the list is cut to the window and its expiry set to a week; hashes and indexes are untouched |
| Memory.PushedWindow | app/services/memory.py:22-23 | with a positive window the list after a write is the new entry followed by the first `window - 1` earlier entries, never longer than the window; a window of 0 keeps everything |
| Memory.EntryRoundTrip | app/services/memory.py:15-19 | a stored entry decodes to the turn it encodes |
| Memory.DecodeAllEncoded | app/services/memory.py:15-19 | decoding the encodings of a list of turns gives the turns back |
| Memory.DecodeAllPointwise | app/services/memory.py:15 | a successful read decodes every entry, in place |
| Memory.DecodedAt | app/services/memory.py:15 | an entry that decodes to a turn is read back as that turn in its position |
| Memory.PushReversed | app/services/memory.py:22-23 | pushing the next entry onto the newest-first window of the earlier entries gives the newest-first window of all of them |
| Memory.AfterPushesNewest | app/services/memory.py:17-25 | after any sequence of writes to an empty session, the list holds the newest `window` entries, newest first |
| Memory.HistoryRoundTrip | app/services/memory.py:10-25 | after adding turns to an empty session, reading the history gives back the last `window` of them, oldest first |
| Memory.HistoryKeyInjective | app/services/memory.py:12-18 | different sessions use different keys, so a write to one session never touches another |
| Nodes.SchemaInventoryText | app/graph/nodes.py:17-34 | the loop builds one `- table: columns` line per inventory item, joined by newlines; an unreadable inventory gives the placeholder |
| Nodes.InventoryReadBack | app/graph/nodes.py:26-31 | when no name holds a line break the inventory text splits back into one line per item; an empty inventory gives the empty text, not the placeholder |
| Nodes.FormatHistory | app/graph/nodes.py:47-54 | the formatting loop produces one labelled line per turn, joined by newlines |
| Nodes.TurnLineRoundTrip | app/graph/nodes.py:50-52 | a history line reads back as whether the turn was the user's and its content |
| Nodes.HistoryReadBack | app/graph/nodes.py:312-318 | when no content holds a line break the history text splits into one line per turn, each reading back as its turn |
| Nodes.WindowIsTail | app/graph/nodes.py:205-212 | the windowed history shown to the router and the SQL agent is a suffix of the full history shown to the generator |
| Nodes.FileFlagIff | app/graph/nodes.py:43-44 | a file counts as uploaded if and only if its text has a non-whitespace character |
| Nodes.RouterNode | app/graph/nodes.py:38-175 | a model failure ends the run with its error; the update exists if and only if the model's intent is one of the three literals, and then carries that intent and the model's keywords and query unchanged |
| Nodes.RetryLoop | app/graph/nodes.py:214-286 | at most three attempts; the first prompt has no retry section and each later one quotes exactly the previous statement and result; every attempt but the last hit `Error:`; an unmarked result is returned with its statement; three marked results give the fixed failure text without a statement; a failing model call ends the node |
| Nodes.SqlAgentNode | app/graph/nodes.py:186-286 | a failing DDL lookup ends the node before any attempt; otherwise the retry loop runs on the prompt built from the state, the inventory, the DDL and the last four turns, with every statement executed under the state's security context |
| Nodes.MarkerVerdict | app/graph/nodes.py:280-281 | a failed execution always triggers a retry; the forbidden, not-found and empty answers never do, nor does a rejected value without an `E` |
| Nodes.VectorSearchNode | app/graph/nodes.py:289-299 | the node answers the hybrid search for the router's query and keywords |
| Nodes.ModelChoiceMonotone | app/graph/nodes.py:308-309 | more retrieved text never selects the smaller model once the larger one is chosen, and exactly 15000 characters still selects the smaller one |
| Nodes.PromptSectionsFilled | app/graph/nodes.py:338-345 | no generator prompt section is ever blank: each shows its data, or its fallback sentence when the data is empty |
| Nodes.GeneratorNode | app/graph/nodes.py:302-377 | the model is chosen by context length; the answer is the in-order concatenation of the streamed chunks, its length the sum of theirs; a failing stream ends the node |
| PySeq.LastN | app/graph/nodes.py:48 | `h[-n:]` is a suffix of `h` of length `min(n, len(h))` (all of `h` for `n == 0`) |
| PySeq.Reverse | app/services/memory.py:15 | `reversed` puts the k-th element from the end at position k |
| PyDict.AssignLookup | app/services/tools.py:175-180 | after `d[k] = v`, `k` maps to `v` and every other key keeps its value |
| PyDict.AssignKeys | app/services/tools.py:175-180 | `d[k] = v` keeps the key order when `k` is present and appends `k` otherwise |
| RedisModel.Kept | app/services/memory.py:13 | the range `0..stop` covers `stop + 1` elements, capped at the length, with a negative stop counting from the end |
| RedisModel.Redis.LPush | app/services/memory.py:22 | the value goes in front of the key's list; nothing else changes |
| RedisModel.Redis.LTrim | app/services/memory.py:23 | the covered prefix is kept; a list trimmed to nothing is deleted with its expiry; a missing key is left alone |
| RedisModel.Redis.LRange | app/services/memory.py:13 | the covered prefix of the key's list, a missing key reading as empty |
| RedisModel.Redis.Expire | app/services/memory.py:24 | an existing key gets the expiry; a missing key is left alone |
| RedisModel.Redis.HSet | app/core/semantic_cache.py:94-95 | the given fields are set and the hash's other fields are kept |
| RedisModel.Redis.CreateIndex | app/core/semantic_cache.py:45 | the index name is added to the existing indexes |
| Schemas.ParseIntent | app/schemas/model.py:30-31 | a validated intent is one of the three literals and names exactly the text given |
| Schemas.ParseIntentExact | app/schemas/model.py:18-31 | a text validates if and only if it names an intent, every intent name validates to itself, and `other` is rejected |
| Schemas.ValidateGender | app/schemas/model.py:57-61 | the value passes unchanged if and only if it is `M` or `F`; otherwise the fixed message |
| Schemas.ValidateStartTime | app/schemas/model.py:152-156 | the hour passes unchanged if and only if it is in 0..23; otherwise the fixed message |
| Schemas.Defaults | app/schemas/model.py:45-76 | a token pair defaults to type `Bearer` and a member without an address has none |
| SemanticCache.AnswerOnlyBelowThreshold | app/core/semantic_cache.py:69-77 | a cached answer exists if and only if the search succeeded with a top hit strictly below the 0.1 distance threshold whose hash holds a text answer, and it is that answer |
| SemanticCache.LaterStoreWins | app/core/semantic_cache.py:87-95 | storing the same query twice leaves one entry holding the later answer |
| SemanticCache.StoreThenRead | app/core/semantic_cache.py:87-95 | a stored answer is what a hit on its key reads back |
| SemanticCache.SemanticCacheManager.constructor | app/core/semantic_cache.py:11-49 | an existing index is kept, a missing one is created unless creation fails (the failure is swallowed), and no data changes |
| SemanticCache.SemanticCacheManager.SearchCache | app/core/semantic_cache.py:55-80 | a failed embedding is a miss; otherwise the answer of the nearest-neighbour search on the query's embedding, every failure being a miss |
| SemanticCache.SemanticCacheManager.StoreCache | app/core/semantic_cache.py:82-100 | the answer, query vector and time are stored under the query's key with a one-day expiry; a failed embedding or pipeline changes nothing; lists and indexes never change |
| Text.StripEmptyIff | app/graph/nodes.py:44 | a text strips to nothing exactly when every character is whitespace |
| Text.RStripChar | app/services/tools.py:98 | `rstrip(';')` removes exactly the trailing semicolons |
| Text.ZFillRoundTrip | app/services/member.py:40 | zero-padded decimal text is all digits and reads back as the number |
| Text.FirstDigitRun | app/services/member.py:35-37 | the first maximal run of digits, present exactly when the text has a digit |
| Text.MaxString | app/services/member.py:25 | the greatest id in string order, as `ORDER BY employee_id DESC LIMIT 1` returns it |
| Text.SplitJoin | app/graph/nodes.py:31 | splitting a newline join gives back the parts when none of them holds a newline |
| DocSearch.KeywordLiteralRoundTrip | app/services/tools.py:160 | each keyword becomes one SQL literal that reads back as `%keyword%`, whatever quotes it holds, and reading stops right after it |
| DocSearch.ArrayLiteralRoundTrip | app/services/tools.py:159-166 | the `ARRAY[...]` list reads back as the keywords wrapped in `%`, one literal each, in order |
| DocSearch.DenseKeys | app/services/tools.py:176-177 | the dense pass adds each new content once, in order of first occurrence |
| DocSearch.DenseLookup | app/services/tools.py:176-177 | after the dense pass a content maps to the last dense row carrying it |
| DocSearch.KeywordKeys | app/services/tools.py:178-180 | the keyword pass adds each content not yet present once, in order of first occurrence |
| DocSearch.KeywordLookup | app/services/tools.py:178-180 | the keyword pass never overwrites a content already present; a new content maps to the first keyword row carrying it |
| DocSearch.MergeDictFacts | app/services/tools.py:175-181 | the merge holds each content once, in order of first occurrence over dense then keyword hits, each keyed by its row's content; a dense hit wins over a keyword hit with the same content |
| DocSearch.MergeEmptyIff | app/services/tools.py:184-185 | the merge is empty if and only if both searches found nothing |
| DocSearch.MergeHits | app/services/tools.py:175-181 | the two merge loops give the dict's values, whose contents are the deduplicated contents of the dense then keyword hits |
| DocSearch.ValuesContents | app/services/tools.py:181-189 | the documents sent to the reranker are the merged dict's keys, in order |
| DocSearch.SortDescFacts | app/services/tools.py:201 | the reference order is sorted by score (highest first), a permutation of its input, and stable among equal scores |
| DocSearch.SortByScore | app/services/tools.py:201 | the insertion sort computes the reference order: sorted descending, a permutation, stable |
| DocSearch.Top3Best | app/services/tools.py:201-204 | the three chosen documents score at least as high as every document left out |
| DocSearch.FormatTop | app/services/tools.py:204-213 | the loop formats one block per chosen document, at most three, joined by blank lines |
| DocSearch.HybridVectorSearch | app/services/tools.py:127-216 | a failed embedding propagates; a failure inside the session becomes `Error: ` and its message; the keyword search runs only for a non-empty keyword list; otherwise the answer computed from the merged, reranked and sorted hits |
| DocSearch.NoHitsSentinel | app/services/tools.py:184-185 | with no hit from either search the answer is exactly the no-results sentence |
| DocSearch.AnswerBlocks | app/services/tools.py:184-213 | with at least one hit the answer joins at most three blocks, best score first |
| SqlTool.ContextPatternIff | app/services/tools.py:46 | the pattern accepts exactly the non-empty runs of letters, digits, `_` and `-`, bare or followed by one final newline |
| SqlTool.ValidateSecurityContext | app/services/tools.py:42-48 | the value is returned unchanged if and only if it matches the allow-list pattern; otherwise the security-alert message quoting it |
| SqlTool.FirstInvalid | app/services/tools.py:55-65 | no value is reported exactly when all four validate; a reported value is one of them and fails validation |
| SqlTool.RecordLookup | app/services/tools.py:120 | `dict(zip(columns, row))` maps each column to the row's value at the last position carrying that name |
| SqlTool.RecordKeys | app/services/tools.py:120 | the record's keys are the zipped column names in order of first occurrence, each once |
| SqlTool.ExecuteSqlQuery | app/services/tools.py:54-124 | a rejected value is reported before any statement is sent; otherwise the context is set first, then the query runs, and the database's answers fix the outcome: a failing `set_config`, query or shadow count is that error's message; returned rows are the result as they came; an empty non-SELECT gives `[]`; an empty SELECT is forbidden when the shadow count is positive and not found otherwise |
| SqlTool.AnsweredUnique | app/services/tools.py:73-124 | the database's answers leave exactly one outcome, so the executor's result is determined by them |
| SqlTool.StatusKeepsMarker | app/services/tools.py:123-124 | an error message carrying `Error:` keeps it in the JSON payload |
| SqlTool.FailedCarriesMarker | app/services/tools.py:123-124 | every exception inside the transaction yields a payload carrying `Error:` |
| SqlTool.ForbiddenLacksMarker | app/services/tools.py:106-110 | the forbidden payload does not contain `Error:` |
| SqlTool.NotFoundLacksMarker | app/services/tools.py:111-115 | the not-found payload does not contain `Error:` |
| SqlTool.EmptyAnswersLackMarker | app/services/tools.py:94-117 | the forbidden, not-found and empty answers never contain `Error:` |
| SqlTool.RejectedLacksMarker | app/services/tools.py:64-65 | a rejected value without an `E` gives a payload without `Error:` |
| SqlTool.RejectedKeepsMarker | app/services/tools.py:64-65 | a rejected value containing `Error:` puts it into the payload, so the agent retries on it |
| SqlTool.StatusPayloadRoundTrip | app/services/tools.py:64-65 | a status payload reads back as the status and message it was written with |
| SqlTool.SearchSchemaDdl | app/services/tools.py:25-38 | embedding and query failures propagate; the result is the DDL of at most five nearest entries joined by blank lines |
| Workflow.RouteByIntent | app/graph/workflow.py:18-28 | every intent the router can produce routes to one or two retrieval nodes and never directly to the generator: the SQL agent unless `vector`, the document search unless `rdb` |
| Workflow.RouteOtherwise | app/graph/workflow.py:27-28 | any other intent goes straight to the generator |
| Workflow.StateGraph.constructor | app/graph/workflow.py:6 | a new builder has no nodes, edges, entry point or branches |
| Workflow.StateGraph.AddNode | app/graph/workflow.py:9-12 | a new name is appended to the nodes; a name already present is refused and nothing changes |
| Workflow.StateGraph.AddEdge | app/graph/workflow.py:41-45 | the edge is appended and nothing else changes |
| Workflow.StateGraph.SetEntryPoint | app/graph/workflow.py:15 | the entry point is set and nothing else changes |
| Workflow.StateGraph.AddConditionalEdges | app/graph/workflow.py:30-38 | the branch with its path map is appended and nothing else changes |
| Workflow.BuildGraph | app/graph/workflow.py:5-47 | the built graph is exactly the application graph |
| Workflow.AppGraphShape | app/graph/workflow.py:9-45 | the graph starts at the router and every step moves forward (no cycle); both retrieval nodes lead only to the generator, and the generator only to the end; every routing decision is a path-map key mapped to a node of the graph |

## Left out

- LangGraph's scheduler is not modelled: parallel execution of the two retrieval branches, state merging, and `astream_events`. In `Chat`, the graph is an oracle from inputs to events. Node composition is modelled only as the individual nodes and the built graph's shape.
- Streaming and concurrency are not modelled. FastAPI's async I/O, `StreamingResponse` and the background runner are modelled as the ordered lists of chunks and tasks.
- The prompt texts are not modelled. Each prompt is reduced to the values it interpolates.
- Timing and logging are left out: `time.perf_counter`, `print` and the debug branches of the event loop.
- Floating point is replaced by reals: reranker scores, cosine distances and `time.time()`. Float32 packing of vectors (`np.float32.tobytes`) is left out.
- `json.loads` is modelled only for the entries the memory itself writes (the two-key objects). Other JSON in the Redis list counts as an undecodable entry that fails the read.
- `json.dumps` of result rows renders floats and non-JSON values through an oracle-given text (`CFloat`, `COther`). Python's float repr is not modelled.
- `int()` is modelled for ASCII digits with an optional sign and surrounding whitespace. Underscores and non-ASCII digits are left out, and so are `str.upper`/`str.lower` beyond ASCII.
- `strftime("%Y")` is modelled as the year zero-padded to four digits.
- Every oracle is left out: row-level security itself, `fn_check_login`, `fn_check_query_count_bypass_rls`, the reservation id sequence's concurrency, bcrypt, JWT, the language models, embeddings and the reranker.
- Only the Redis commands the code issues are modelled, and each pipeline is applied as one step. Lists and hashes are kept in two maps that share one expiry map, so the model does not refuse a key holding both (Redis's `WRONGTYPE`). The code's `history:` and `cache:` key families never meet. A failing Redis connection outside the search and store paths (which catch everything) is not modelled.
- Chat.ChatEndpoint: an exception raised by the graph part-way is modelled as the stream ending early with no tasks scheduled. The way FastAPI reports it to the client is not modelled.
- Chat.RecordExchange: it requires a non-empty answer, because the endpoint schedules the three tasks only in that case.
- MemberService.EmployeeTable.CreateEmployee: of the database errors, only the primary-key violation is modelled (rolled back and reported as the sign-up 500 with the error text, given as a parameter). Other database errors are not. Neither is `verify_password` raising on a malformed hash.
- Meeting.ReservationTable.GetMonthlyStatus: the month a calendar function rejects is reported as a 500 without its message. The daily result's dict key order is modelled as the field order of `HourSlot`.
- DocSearch.HybridVectorSearch: the reranker is total here. A reranker exception, which the source turns into `Error: ` plus the message, is not modelled.
- Announcements, mail, speech-to-text, address book, the ORM models, configuration and the offline ingestion scripts are not part of this model.

## Findings

| source | as written | input that shows it | evidently intended | confidence | as-written member | corrected member |
|---|---|---|---|---|---|---|
| app/services/member.py:25-40 | the next employee id comes from the greatest existing id in string order | ids `emp999` and `emp1000`: string order picks `emp999`, so the generator returns `emp1000`, which already exists, and the insert fails | one more than the greatest number any id carries, compared as numbers | not executed | MemberService.AsWrittenRepeatsId | MemberService.NextIdFresh |

`MemberService.EmployeeTable.CreateEmployee` keeps the generator as written, so on such a table every sign-up fails with the sign-up 500. `MemberService.CorrectedSkipsTakenId` shows what the corrected generator hands out instead.
