/**
  The request/response schemas of `app/schemas/model.py` that the modelled code uses: the
  LangGraph state, the router's structured output, the chat request, the member and token
  records, the reservation request, and the two Pydantic field validators.
*/
module Schemas {
  import opened Outcomes

  /** One entry of the conversation history: the `{"role": ..., "content": ...}` dict. */
  datatype Turn = Turn(role: string, content: string)

  /** `Literal["rdb", "vector", "both"]`: the only intents the router's output type admits. */
  datatype Intent = Rdb | Vector | Both

  function IntentName(i: Intent): string {
    match i
    case Rdb => "rdb"
    case Vector => "vector"
    case Both => "both"
  }

  /** Pydantic's check of the `intent` field: one of the three literals, anything else is a validation error. */
  function ParseIntent(s: string): (r: Option<Intent>)
    ensures r.Some? ==> IntentName(r.value) == s
  {
    if s == "rdb" then Some(Rdb)
    else if s == "vector" then Some(Vector)
    else if s == "both" then Some(Both)
    else None
  }

  /** Exactly the three names parse, each to the intent it names; the router prompt's `other` is rejected. */
  lemma ParseIntentExact(s: string)
    ensures ParseIntent(s).Some? <==> exists i: Intent :: IntentName(i) == s
    ensures forall i: Intent :: ParseIntent(IntentName(i)) == Some(i)
    ensures ParseIntent("other") == None
  {
    if ParseIntent(s).None? {
      forall i: Intent ensures IntentName(i) != s {
      }
    } else {
      assert IntentName(ParseIntent(s).value) == s;
    }
  }

  /** `RouterOutput`: the structured output of the router model, once validated. */
  datatype RouterOutput = RouterOutput(intent: Intent, sqlKeywords: seq<string>, vectorQuery: string)

  /** `ChatRequest`: the six string fields of a chat request. */
  datatype ChatRequest = ChatRequest(
    query: string, employeeId: string, jobRankId: string,
    departmentCode: string, parentDepartment: string, companyEmail: string)

  /**
    `AgentState`: the LangGraph state. The node outputs are `None` until a node has written them;
    the generator reads missing results as `""` (`state.get(..., "")`).
  */
  datatype AgentState = AgentState(
    question: string, employeeId: string, jobRankId: string, departmentCode: string,
    parentDepartment: string, companyEmail: string, fileContext: string, history: seq<Turn>,
    intent: Option<Intent>, sqlKeywords: seq<string>, vectorQuery: string,
    rdbResult: Option<string>, vectorResult: Option<string>, generatedSql: Option<string>,
    finalAnswer: Option<string>)

  /** `TokenInfo`: `token_type` defaults to `"Bearer"`. */
  datatype TokenInfo = TokenInfo(accessToken: string, refreshToken: string, tokenType: string := "Bearer")

  /** `MemberInfo`: what a successful login reports about the member. */
  datatype MemberInfo = MemberInfo(
    employeeId: string, employeeName: string, jobRankId: int, departmentCode: string,
    companyEmail: string, parentDepartmentCode: string)

  /** `LoginResponse`. */
  datatype LoginResponse = LoginResponse(member: MemberInfo, token: TokenInfo)

  /** A calendar date (`datetime.date`). */
  datatype Date = Date(year: int, month: int, day: int)

  /** `Member`: the sign-up request; `home_address` defaults to `None`. */
  datatype Member = Member(
    employeeName: string, phoneNumber: string, jobRankId: int, departmentCode: string,
    companyEmail: string, loginPassword: string, genderCode: string, birthDate: Date,
    homeAddress: Option<string> := None)

  /** `ReservationCreateRequest`. */
  datatype ReservationCreateRequest = ReservationCreateRequest(
    departmentCode: string, employeeId: string, meetingRoomId: string, usageDate: Date, startTime: int)

  const GenderError := "성별은 'M' 또는 'F'여야 합니다."
  const StartTimeError := "시간은 0~23 사이의 정수여야 합니다."

  /** `Member.validate_gender`: the value passes unchanged exactly when it is `M` or `F`. */
  function ValidateGender(v: string): (r: Result<string, string>)
    ensures r.Ok? <==> v == "M" || v == "F"
    ensures r.Ok? ==> r.value == v
    ensures r.Err? ==> r.error == GenderError
  {
    if v != "M" && v != "F" then Err(GenderError) else Ok(v)
  }

  /** `ReservationCreateRequest.validate_time`: the hour passes unchanged exactly when it is in 0..23. */
  function ValidateStartTime(v: int): (r: Result<int, string>)
    ensures r.Ok? <==> 0 <= v <= 23
    ensures r.Ok? ==> r.value == v
    ensures r.Err? ==> r.error == StartTimeError
  {
    if !(0 <= v <= 23) then Err(StartTimeError) else Ok(v)
  }

  /** The defaults: a token pair is a Bearer pair, and a member without an address has `None`. */
  lemma Defaults(access: string, refresh: string, m: Member)
    ensures TokenInfo(access, refresh).tokenType == "Bearer"
    ensures Member(m.employeeName, m.phoneNumber, m.jobRankId, m.departmentCode, m.companyEmail,
                   m.loginPassword, m.genderCode, m.birthDate).homeAddress.None?
  {
  }
}
