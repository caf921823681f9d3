/**
  The `/chat` endpoint of `app/main.py`: the request form is validated, an attached file is turned
  into text, a semantic-cache hit is streamed back as it is, and otherwise the conversation history
  is read, the agent graph runs, and the generator node's model tokens are streamed to the client.
  Once a non-empty answer has been streamed in full, three background tasks cache it and record
  the exchange in the conversation memory.

  The graph itself is an oracle here: for its inputs it gives the events it emits and, when it
  raises part-way, the error that ends the stream.
*/
module Chat {
  import opened Outcomes
  import opened Text
  import opened Schemas
  import opened PySeq
  import opened RedisModel
  import FileParser
  import SemanticCache
  import Memory
  import Workflow

  const InvalidJson := "Invalid JSON format: "
  const StreamKind := "on_chat_model_stream"
  /** The node name an event without `langgraph_node` metadata is given. */
  const UnknownNode := "Unknown"
  const UserRole := "user"
  const AssistantRole := "assistant"

  /** One event of `astream_events`: its kind, the node it came from (if named) and its chunk text. */
  datatype Event = Event(kind: string, node: Option<string>, content: string)

  /** The events the graph emitted, and the error it raised part-way, if any. */
  datatype GraphRun = GraphRun(events: seq<Event>, raised: Option<string>)

  /** A task handed to the background runner, in the order it is added. */
  datatype Task =
    | StoreCache(query: string, response: string)
    | AddMessage(sessionId: string, role: string, content: string)

  /** What the client receives: the streamed chunks, whether the stream ended normally, and the scheduled tasks. */
  datatype ChatResponse = ChatResponse(stream: seq<string>, completed: bool, tasks: seq<Task>)

  function NodeName(e: Event): string {
    match e.node
    case Some(n) => n
    case None => UnknownNode
  }

  /** An event whose text is sent to the client: a non-empty model token from the generator node. */
  predicate Streams(e: Event) {
    e.kind == StreamKind && NodeName(e) == Workflow.Generator && e.content != ""
  }

  /** The chunks the event loop yields, in event order. */
  function Chunks(events: seq<Event>): seq<string> {
    if |events| == 0 then []
    else
      var last := events[|events| - 1];
      Chunks(events[..|events| - 1]) + (if Streams(last) then [last.content] else [])
  }

  /** The state the graph starts from; every node output is still unset. */
  function GraphInputs(req: ChatRequest, fileContext: string, history: seq<Turn>): (s: AgentState)
    ensures s.question == req.query && s.employeeId == req.employeeId && s.fileContext == fileContext
    // the row-level-security context the SQL agent sends, and the caller's email
    ensures s.jobRankId == req.jobRankId && s.departmentCode == req.departmentCode
    ensures s.parentDepartment == req.parentDepartment && s.companyEmail == req.companyEmail
    ensures s.history == history
    ensures s.intent.None? && s.rdbResult.None? && s.vectorResult.None? && s.generatedSql.None? && s.finalAnswer.None?
  {
    AgentState(req.query, req.employeeId, req.jobRankId, req.departmentCode, req.parentDepartment,
               req.companyEmail, fileContext, history, None, [], "", None, None, None, None)
  }

  /** The tasks the generator schedules after its loop: none when nothing was streamed. */
  function BackgroundTasks(req: ChatRequest, finalOutput: string): seq<Task> {
    if finalOutput == "" then []
    else [StoreCache(req.query, finalOutput),
          AddMessage(req.employeeId, UserRole, req.query),
          AddMessage(req.employeeId, AssistantRole, finalOutput)]
  }

  /**
    `event_generator`: yields every streamed chunk and accumulates them; after a run that did not
    raise, schedules the background tasks for the accumulated answer.
  */
  method EventGenerator(run: GraphRun, req: ChatRequest) returns (yielded: seq<string>, finalOutput: string, tasks: seq<Task>)
    ensures yielded == Chunks(run.events)
    ensures finalOutput == Concat(yielded)
    ensures tasks == if run.raised.None? then BackgroundTasks(req, finalOutput) else []
  {
    yielded, finalOutput := [], "";
    var i := 0;
    while i < |run.events|
      invariant 0 <= i <= |run.events|
      invariant yielded == Chunks(run.events[..i])
      invariant finalOutput == Concat(yielded)
    {
      var event := run.events[i];
      assert run.events[..i + 1][..i] == run.events[..i];
      if event.kind == StreamKind && NodeName(event) == Workflow.Generator {
        if event.content != "" {
          ConcatSnoc(yielded, event.content);
          finalOutput := finalOutput + event.content;
          yielded := yielded + [event.content];
        }
      }
      i := i + 1;
    }
    assert run.events[..i] == run.events;
    tasks := [];
    if run.raised.None? && finalOutput != "" {
      tasks := [StoreCache(req.query, finalOutput),
                AddMessage(req.employeeId, UserRole, req.query),
                AddMessage(req.employeeId, AssistantRole, finalOutput)];
    }
  }

  /**
    The stream holds exactly the contents of the generator's non-empty model tokens, in the order
    they were emitted: router, SQL and search events, and empty tokens, never reach the client.
  */
  lemma {:induction false} ChunksMeaning(events: seq<Event>)
    ensures |Chunks(events)| <= |events|
    ensures forall j :: 0 <= j < |Chunks(events)| ==> Chunks(events)[j] != ""
    ensures forall x :: x in Chunks(events) <==> exists k :: 0 <= k < |events| && Streams(events[k]) && events[k].content == x
    ensures Chunks(events) == [] <==> forall k :: 0 <= k < |events| ==> !Streams(events[k])
  {
    if |events| > 0 {
      var init := events[..|events| - 1];
      var last := events[|events| - 1];
      ChunksMeaning(init);
      assert forall k :: 0 <= k < |init| ==> init[k] == events[k];
      forall x | x in Chunks(events)
        ensures exists k :: 0 <= k < |events| && Streams(events[k]) && events[k].content == x
      {
        if x !in Chunks(init) {
          assert Streams(last) && x == last.content;
        } else {
          var k :| 0 <= k < |init| && Streams(init[k]) && init[k].content == x;
          assert events[k] == init[k];
        }
      }
      forall x, k | 0 <= k < |events| && Streams(events[k]) && events[k].content == x
        ensures x in Chunks(events)
      {
        if k < |init| {
          assert init[k] == events[k];
        }
      }
    }
  }

  /**
    The answer is empty exactly when no event streamed, so the background tasks are scheduled
    exactly for a run that completed and streamed at least one token; they then carry the whole
    streamed answer.
  */
  lemma TasksOnlyAfterStreaming(run: GraphRun, req: ChatRequest)
    ensures var answer := Concat(Chunks(run.events));
      && (answer == "" <==> forall k :: 0 <= k < |run.events| ==> !Streams(run.events[k]))
      && (BackgroundTasks(req, answer) != [] <==> exists k :: 0 <= k < |run.events| && Streams(run.events[k]))
  {
    ChunksMeaning(run.events);
    ConcatEmptyIff(Chunks(run.events));
  }

  /** What `semantic_cache.search_cache` answers for the current store. */
  function CacheAnswer(cache: SemanticCache.SemanticCacheManager, query: string): Option<string>
    reads cache.r
  {
    match cache.embed(query)
    case Err(_) => None
    case Ok(v) => SemanticCache.Answer(cache.knn(v, cache.r.hashes), cache.r.hashes)
  }

  /**
    `chat_endpoint`. A request form that does not parse is a 422; a non-empty cache hit is the
    whole stream and schedules nothing; a history that cannot be decoded raises before streaming
    starts (500); otherwise the graph runs on the parsed request, the file text and the history.
  */
  method ChatEndpoint(cache: SemanticCache.SemanticCacheManager, memory: Memory.ConversationMemoryManager,
                      requestData: string, file: Option<FileParser.Upload>,
                      parse: string -> Result<ChatRequest, string>, decoders: FileParser.Decoders,
                      graph: AgentState -> GraphRun)
    returns (r: Result<ChatResponse, HttpError>)
    ensures parse(requestData).Err? ==> r == Err(HttpError(422, InvalidJson + parse(requestData).error))
    ensures parse(requestData).Ok? ==>
      var req := parse(requestData).value;
      var hit := CacheAnswer(cache, req.query);
      var history := Memory.DecodeAll(Reverse(Memory.Window(memory.r.List(Memory.HistoryKey(req.employeeId)), memory.windowSize)));
      var fileContext := if file.Some? then FileParser.Parsed(file.value, decoders) else "";
      && (hit.Some? && hit.value != "" ==> r == Ok(ChatResponse([hit.value], true, [])))
      && (!(hit.Some? && hit.value != "") && history.Err? ==> r == Err(InternalError))
      && (!(hit.Some? && hit.value != "") && history.Ok? ==>
            var run := graph(GraphInputs(req, fileContext, history.value));
            var stream := Chunks(run.events);
            r == Ok(ChatResponse(stream, run.raised.None?,
                                 if run.raised.None? then BackgroundTasks(req, Concat(stream)) else [])))
  {
    var parsed := parse(requestData);
    if parsed.Err? {
      return Err(HttpError(422, InvalidJson + parsed.error));
    }
    var req := parsed.value;
    var fileContext := "";
    if file.Some? {
      fileContext := FileParser.ParseUploadedFile(file.value, decoders);
    }
    var cached := cache.SearchCache(req.query);
    if cached.Some? && cached.value != "" {
      return Ok(ChatResponse([cached.value], true, []));
    }
    var history := memory.GetHistory(req.employeeId);
    if history.Err? {
      return Err(InternalError);
    }
    var run := graph(GraphInputs(req, fileContext, history.value));
    var yielded, finalOutput, tasks := EventGenerator(run, req);
    return Ok(ChatResponse(yielded, run.raised.None?, tasks));
  }

  /**
    The background runner working through `BackgroundTasks(req, finalOutput)` in order, on the
    shared Redis store; the tasks exist only for a non-empty answer. The answer is cached (unless
    embedding it or the pipeline fails), then the question and the answer are pushed onto the
    session's history.
  */
  method RecordExchange(cache: SemanticCache.SemanticCacheManager, memory: Memory.ConversationMemoryManager,
                        req: ChatRequest, finalOutput: string, now: real, execError: Option<string>)
    requires cache.r == memory.r && memory.windowSize >= 0 && finalOutput != ""
    modifies cache.r
    ensures var key := Memory.HistoryKey(req.employeeId);
      var cacheKey := SemanticCache.CacheKey(cache.hash, req.query);
      var cached := cache.embed(req.query).Ok? && execError.None?;
      var w := memory.windowSize;
      && cache.r.lists == old(cache.r.lists)[key :=
           Memory.Pushed(Memory.Pushed(old(cache.r.List(key)), Memory.Encode(Turn(UserRole, req.query)), w),
                         Memory.Encode(Turn(AssistantRole, finalOutput)), w)]
      && cache.r.hashes == (if cached then SemanticCache.Stored(old(cache.r.hashes), cacheKey,
                                             SemanticCache.Mapping(finalOutput, cache.embed(req.query).value, now))
                            else old(cache.r.hashes))
      && cache.r.ttl == (if cached then old(cache.r.ttl)[cacheKey := SemanticCache.CacheTtl] else old(cache.r.ttl))
                          [key := Memory.HistoryTtl]
    ensures cache.r.indexes == old(cache.r.indexes)
  {
    cache.StoreCache(req.query, finalOutput, now, execError);
    ghost var hashes1, ttl1 := cache.r.hashes, cache.r.ttl;
    PushTurns(memory, req.employeeId, Turn(UserRole, req.query), Turn(AssistantRole, finalOutput));
    assert cache.r.hashes == hashes1;
    assert cache.r.ttl == ttl1[Memory.HistoryKey(req.employeeId) := Memory.HistoryTtl];
  }

  /** The two `add_message` tasks: both turns pushed onto the session's list, the expiry reset. */
  method PushTurns(memory: Memory.ConversationMemoryManager, sessionId: string, t1: Turn, t2: Turn)
    requires memory.windowSize >= 0
    modifies memory.r
    ensures var key := Memory.HistoryKey(sessionId);
      var w := memory.windowSize;
      && memory.r.lists == old(memory.r.lists)[key :=
           Memory.Pushed(Memory.Pushed(old(memory.r.List(key)), Memory.Encode(t1), w), Memory.Encode(t2), w)]
      && memory.r.ttl == old(memory.r.ttl)[key := Memory.HistoryTtl]
    ensures memory.r.hashes == old(memory.r.hashes) && memory.r.indexes == old(memory.r.indexes)
  {
    var key := Memory.HistoryKey(sessionId);
    var w := memory.windowSize;
    ghost var lists0, ttl0 := memory.r.lists, memory.r.ttl;
    ghost var p1 := Memory.Pushed(memory.r.List(key), Memory.Encode(t1), w);
    Memory.PushedWindow(memory.r.List(key), Memory.Encode(t1), w);
    memory.AddMessage(sessionId, t1.role, t1.content);
    assert memory.r.lists == lists0[key := p1] && memory.r.ttl == ttl0[key := Memory.HistoryTtl];
    assert memory.r.List(key) == p1;
    ghost var p2 := Memory.Pushed(p1, Memory.Encode(t2), w);
    Memory.PushedWindow(p1, Memory.Encode(t2), w);
    memory.AddMessage(sessionId, t2.role, t2.content);
    assert memory.r.lists == lists0[key := p2];
  }

  /** After two pushes onto a window of at least two, the oldest-first read ends with the two pushed entries. */
  lemma ReadEndsWithPushes(list: seq<string>, u: string, a: string, w: int)
    requires w >= 2
    ensures var es := Reverse(Memory.Window(Memory.Pushed(Memory.Pushed(list, u, w), a, w), w));
      |es| >= 2 && es[|es| - 2] == u && es[|es| - 1] == a
  {
    var p1 := Memory.Pushed(list, u, w);
    Memory.PushedWindow(list, u, w);
    var stored := Memory.Pushed(p1, a, w);
    Memory.PushedWindow(p1, a, w);
    assert stored[0] == a && stored[1] == u;
    assert Memory.Window(stored, w) == stored;
  }

  /**
    With a window of at least two entries, the next history read of the session ends with the two
    turns just recorded, in the order they were pushed (the question, then the answer).
  */
  lemma NextHistoryEndsWithExchange(list: seq<string>, t1: Turn, t2: Turn, w: int)
    requires w >= 2
    ensures var stored := Memory.Pushed(Memory.Pushed(list, Memory.Encode(t1), w), Memory.Encode(t2), w);
      var read := Memory.DecodeAll(Reverse(Memory.Window(stored, w)));
      read.Ok? ==>
        var ts := read.value;
        |ts| >= 2 && ts[|ts| - 2] == t1 && ts[|ts| - 1] == t2
  {
    var u := Memory.Encode(t1);
    var a := Memory.Encode(t2);
    var es := Reverse(Memory.Window(Memory.Pushed(Memory.Pushed(list, u, w), a, w), w));
    ReadEndsWithPushes(list, u, a, w);
    var n := |es|;
    assert Memory.Decode(es[n - 2]) == Some(t1) by { Memory.EntryRoundTrip(t1); }
    assert Memory.Decode(es[n - 1]) == Some(t2) by { Memory.EntryRoundTrip(t2); }
    Memory.DecodedAt(es, n - 2, t1);
    Memory.DecodedAt(es, n - 1, t2);
  }
}
