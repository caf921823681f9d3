/**
  The member service of `app/services/member.py`: employee-id generation, sign-up over an
  in-memory employee table, and the login and token-refresh decisions. Password hashing and
  verification and the JWT functions are oracles.
*/
module MemberService {
  import opened Outcomes
  import opened Text
  import opened Schemas

  const FirstEmployeeId := "emp001"
  const IdPrefix := "emp"
  const IdError := HttpError(500, "사원 ID 생성 중 오류가 발생했습니다.")
  const EmailTaken := "이미 존재하는 이메일입니다."
  const WrongEmail := "이메일을 잘못 입력하셨습니다."
  const WrongPassword := "비밀번호가 일치하지 않습니다."
  const SignUpErrorPrefix := "회원가입 처리 중 오류 발생: "
  const TokenMismatch := "토큰 정보가 일치하지 않습니다."

  // ---------------------------------------------------------------------------
  // employee ids

  /** The number an id carries: its first run of digits, read as an integer. */
  function IdNumber(id: string): Option<nat> {
    match FirstDigitRun(id)
    case None => None
    case Some(d) => Some(DigitsValue(d))
  }

  /** `f"emp{str(n).zfill(3)}"`. */
  function FormatId(n: nat): string {
    IdPrefix + ZFill(NatToString(n), 3)
  }

  /** The id after `lastId`: its number plus one, formatted; an id without digits is a 500. */
  function SuccessorOf(lastId: string): Result<string, HttpError> {
    match IdNumber(lastId)
    case None => Err(IdError)
    case Some(n) => Ok(FormatId(n + 1))
  }

  /** A formatted id carries the number it was formatted from. */
  lemma FormatIdNumber(n: nat)
    ensures IdNumber(FormatId(n)) == Some(n)
  {
    var digits := ZFill(NatToString(n), 3);
    ZFillRoundTrip(n, 3);
    PrefixWithoutDigits();
    FirstDigitRunAfter(IdPrefix, digits);
  }

  /** The id prefix holds no digit, so the number is the first digit run. */
  lemma PrefixWithoutDigits()
    ensures forall k :: 0 <= k < |IdPrefix| ==> !IsDigit(IdPrefix[k])
  {
    assert IdPrefix == ['e', 'm', 'p'];
  }

  /**
    `generate_employee_id` as written: the successor of the greatest existing id in string order
    (`ORDER BY employee_id DESC LIMIT 1`), and `emp001` for an empty table.
  */
  function GenerateEmployeeIdAsWritten(ids: seq<string>): Result<string, HttpError> {
    if |ids| == 0 then Ok(FirstEmployeeId) else SuccessorOf(MaxString(ids))
  }

  /** The successor of a formatted id is the formatted successor of its number. */
  lemma SuccessorOfFormatted(n: nat)
    ensures SuccessorOf(FormatId(n)) == Ok(FormatId(n + 1))
  {
    FormatIdNumber(n);
  }

  /** The documented steps: `emp064` is followed by `emp065`, and `emp999` by `emp1000`. */
  lemma SuccessorExamples()
    ensures SuccessorOf("emp064") == Ok("emp065")
    ensures SuccessorOf("emp999") == Ok("emp1000")
  {
    Id064();
    Id999();
    Id1000();
    SuccessorOfFormatted(64);
    SuccessorOfFormatted(999);
  }

  /**
    Once `emp1000` exists, string order still picks `emp999` as the greatest id, so the generator
    hands out `emp1000` again: an id that is already taken.
  */
  lemma AsWrittenRepeatsId()
    ensures GenerateEmployeeIdAsWritten(["emp999", "emp1000"]) == Ok("emp1000")
    ensures "emp1000" in ["emp999", "emp1000"]
  {
    var ids := ["emp999", "emp1000"];
    assert !LexLe("emp999", "emp1000") by {
      assert "emp999"[3] == '9' && "emp1000"[3] == '1';
      assert "emp999"[..3] == "emp1000"[..3];
      assert "emp999"[1..][1..][1..] == "999" && "emp1000"[1..][1..][1..] == "1000";
    }
    assert MaxString(ids) == "emp999";
    SuccessorExamples();
  }

  /** The greatest number carried by any of the ids, or 0 when none carries one. */
  function MaxIdNumber(ids: seq<string>): (m: nat)
    ensures forall k :: 0 <= k < |ids| && IdNumber(ids[k]).Some? ==> IdNumber(ids[k]).value <= m
  {
    if |ids| == 0 then 0
    else
      var rest := MaxIdNumber(ids[1..]);
      assert forall k :: 1 <= k < |ids| ==> ids[k] == ids[1..][k - 1];
      match IdNumber(ids[0])
      case None => rest
      case Some(n) => if n > rest then n else rest
  }

  /**
    `generate_employee_id` as evidently intended: one more than the greatest number any id
    carries, compared as numbers. An empty table still starts at `emp001`, and a table whose ids
    carry no digits at all is still a 500.
  */
  function GenerateEmployeeId(ids: seq<string>): Result<string, HttpError> {
    if |ids| == 0 then Ok(FirstEmployeeId)
    else if forall k :: 0 <= k < |ids| ==> IdNumber(ids[k]).None? then Err(IdError)
    else Ok(FormatId(MaxIdNumber(ids) + 1))
  }

  /** The intended generator never hands out an id that already exists. */
  lemma NextIdFresh(ids: seq<string>)
    ensures GenerateEmployeeId(ids).Ok? ==> GenerateEmployeeId(ids).value !in ids
  {
    if GenerateEmployeeId(ids).Ok? {
      var id := GenerateEmployeeId(ids).value;
      if |ids| == 0 {
      } else {
        FormatIdNumber(MaxIdNumber(ids) + 1);
      }
    }
  }

  // ---------------------------------------------------------------------------
  // sign-up

  /** A row of `employees`; the password is stored hashed. */
  datatype Employee = Employee(
    employeeId: string, employeeName: string, phoneNumber: string, jobRankId: int,
    departmentCode: string, homeAddress: Option<string>, companyEmail: string, passwordHash: string,
    genderCode: string, birthDate: Date, hireDate: Date)

  datatype SignedUp = SignedUp(employeeId: string, name: string)

  /** The 500 `create_employee` raises for any other failure, after rolling the insert back. */
  function SignUpFailed(error: string): HttpError {
    HttpError(500, SignUpErrorPrefix + error)
  }

  function EmployeeIds(rows: seq<Employee>): (ids: seq<string>)
    ensures |ids| == |rows| && forall k :: 0 <= k < |rows| ==> ids[k] == rows[k].employeeId
  {
    seq(|rows|, k requires 0 <= k < |rows| => rows[k].employeeId)
  }

  predicate EmailInUse(rows: seq<Employee>, email: string) {
    exists k :: 0 <= k < |rows| && rows[k].companyEmail == email
  }

  /** The table invariant: employee ids and company emails are unique. */
  predicate UniqueKeys(rows: seq<Employee>) {
    forall i, j :: 0 <= i < j < |rows| ==> rows[i].employeeId != rows[j].employeeId && rows[i].companyEmail != rows[j].companyEmail
  }

  class EmployeeTable {
    var rows: seq<Employee>

    predicate Valid()
      reads this
    {
      UniqueKeys(rows)
    }

    constructor (rows: seq<Employee>)
      requires UniqueKeys(rows)
      ensures this.rows == rows && Valid()
    {
      this.rows := rows;
    }

    /**
      `create_employee`, with the generator as written: an email already in use is a 400 and
      nothing is inserted; an id the generator cannot produce is its 500; an id that already
      exists breaks the `employee_id` primary key, so the insert is rolled back and reported as
      the sign-up 500 carrying the database's error text `keyViolation`; otherwise one row is
      inserted under the new id, with the password hashed and `today` as hire date, and the id
      and name are returned. The table keeps unique ids and emails in every case.
    */
    method CreateEmployee(data: Member, hash: string -> string, today: Date, keyViolation: string)
      returns (r: Result<SignedUp, HttpError>)
      requires Valid()
      modifies this
      ensures Valid()
      ensures EmailInUse(old(rows), data.companyEmail) ==> r == Err(HttpError(400, EmailTaken)) && rows == old(rows)
      ensures !EmailInUse(old(rows), data.companyEmail) && GenerateEmployeeIdAsWritten(EmployeeIds(old(rows))).Err? ==>
        r == Err(IdError) && rows == old(rows)
      ensures !EmailInUse(old(rows), data.companyEmail) && GenerateEmployeeIdAsWritten(EmployeeIds(old(rows))).Ok? ==>
        var id := GenerateEmployeeIdAsWritten(EmployeeIds(old(rows))).value;
        if id in EmployeeIds(old(rows)) then
          r == Err(SignUpFailed(keyViolation)) && rows == old(rows)
        else
          && r == Ok(SignedUp(id, data.employeeName))
          && rows == old(rows) + [Employee(id, data.employeeName, data.phoneNumber, data.jobRankId, data.departmentCode,
                                           data.homeAddress, data.companyEmail, hash(data.loginPassword),
                                           data.genderCode, data.birthDate, today)]
    {
      var i := 0;
      while i < |rows|
        invariant 0 <= i <= |rows|
        invariant forall k :: 0 <= k < i ==> rows[k].companyEmail != data.companyEmail
      {
        if rows[i].companyEmail == data.companyEmail {
          return Err(HttpError(400, EmailTaken));
        }
        i := i + 1;
      }
      var ids := EmployeeIds(rows);
      var generated := GenerateEmployeeIdAsWritten(ids);
      if generated.Err? {
        return Err(generated.error);
      }
      var newId := generated.value;
      if newId in ids {
        return Err(SignUpFailed(keyViolation));
      }
      var row := Employee(newId, data.employeeName, data.phoneNumber, data.jobRankId, data.departmentCode,
                          data.homeAddress, data.companyEmail, hash(data.loginPassword),
                          data.genderCode, data.birthDate, today);
      assert forall k :: 0 <= k < |rows| ==> rows[k].employeeId != newId by {
        forall k | 0 <= k < |rows| ensures rows[k].employeeId != newId { assert ids[k] == rows[k].employeeId; }
      }
      rows := rows + [row];
      r := Ok(SignedUp(newId, data.employeeName));
    }
  }

  /** The documented example id and its successor. */
  lemma Id064()
    ensures FormatId(64) == "emp064" && FormatId(65) == "emp065"
  {
    assert Zeros(1) == "0";
    assert NatToString(64) == "64";
    assert NatToString(65) == "65";
  }

  /** The ids on either side of the thousand mark. */
  lemma Id999()
    ensures FormatId(999) == "emp999"
  {
    assert NatToString(99) == "99";
    assert NatToString(999) == "999";
  }

  lemma Id1000()
    ensures FormatId(1000) == "emp1000"
  {
    assert NatToString(10) == "10";
    assert NatToString(100) == "100";
    assert NatToString(1000) == "1000";
  }

  lemma Id1001()
    ensures FormatId(1001) == "emp1001"
  {
    assert NatToString(10) == "10";
    assert NatToString(100) == "100";
    assert NatToString(1001) == "1001";
  }

  /** Of two formatted ids, the intended generator follows the one with the larger number. */
  lemma CorrectedOfTwo(a: nat, b: nat)
    requires a <= b
    ensures GenerateEmployeeId([FormatId(a), FormatId(b)]) == Ok(FormatId(b + 1))
  {
    var ids := [FormatId(a), FormatId(b)];
    FormatIdNumber(a);
    FormatIdNumber(b);
    assert IdNumber(ids[0]) == Some(a) && IdNumber(ids[1]) == Some(b);
    var tail := ids[1..];
    assert MaxIdNumber(tail) == b by {
      assert tail == [FormatId(b)] && tail[1..] == [] && IdNumber(tail[0]) == Some(b);
    }
    assert MaxIdNumber(ids) == b;
    assert IdNumber(ids[0]).Some?;
  }

  /** On the table that trips the as-written generator, the intended one hands out `emp1001`. */
  lemma CorrectedSkipsTakenId()
    ensures GenerateEmployeeId(["emp999", "emp1000"]) == Ok("emp1001")
  {
    Id999();
    Id1000();
    Id1001();
    CorrectedOfTwo(999, 1000);
  }

  // ---------------------------------------------------------------------------
  // login and refresh

  /** A row of `fn_check_login`: the member and the stored password hash. */
  datatype LoginRow = LoginRow(
    employeeId: string, employeeName: string, jobRankId: int, departmentCode: string,
    companyEmail: string, loginPassword: string, parentDepartmentCode: string)

  function InfoOf(row: LoginRow): MemberInfo {
    MemberInfo(row.employeeId, row.employeeName, row.jobRankId, row.departmentCode, row.companyEmail, row.parentDepartmentCode)
  }

  /**
    `login_employee`: no member with that email is a 401, a password the hash does not verify is a
    401; otherwise the member's information with a Bearer pair of an access and a refresh token
    made from it.
  */
  function LoginEmployee(row: Option<LoginRow>, password: string, verify: (string, string) -> bool,
                         access: MemberInfo -> string, refresh: MemberInfo -> string): (r: Result<LoginResponse, HttpError>)
    ensures row.None? ==> r == Err(HttpError(401, WrongEmail))
    ensures row.Some? && !verify(password, row.value.loginPassword) ==> r == Err(HttpError(401, WrongPassword))
    ensures r.Ok? <==> row.Some? && verify(password, row.value.loginPassword)
    ensures r.Ok? ==> (r.value.member == InfoOf(row.value)
      && r.value.token == TokenInfo(access(InfoOf(row.value)), refresh(InfoOf(row.value)), "Bearer"))
  {
    match row
    case None => Err(HttpError(401, WrongEmail))
    case Some(m) =>
      if !verify(password, m.loginPassword) then Err(HttpError(401, WrongPassword))
      else
        var info := InfoOf(m);
        Ok(LoginResponse(info, TokenInfo(access(info), refresh(info))))
  }

  /**
    `refresh_access_token`: a token the validator rejects keeps the validator's error; a token
    of another employee is a 401; otherwise a new access token made from the token's own claims.
  */
  function RefreshAccessToken(token: string, request: MemberInfo, validate: string -> Result<MemberInfo, HttpError>,
                              access: MemberInfo -> string): (r: Result<string, HttpError>)
    ensures validate(token).Err? ==> r == Err(validate(token).error)
    ensures validate(token).Ok? && validate(token).value.employeeId != request.employeeId ==> r == Err(HttpError(401, TokenMismatch))
    ensures r.Ok? <==> validate(token).Ok? && validate(token).value.employeeId == request.employeeId
    ensures r.Ok? ==> r.value == access(validate(token).value)
  {
    match validate(token)
    case Err(e) => Err(e)
    case Ok(decoded) =>
      if decoded.employeeId != request.employeeId then Err(HttpError(401, TokenMismatch))
      else Ok(access(decoded))
  }

  /**
    The two decisions fit together: when the validator reads a refresh token back as the claims
    it was made from, the member who logged in can refresh with it, and gets the access token of
    those same claims; anyone else presenting it is refused.
  */
  lemma LoginThenRefresh(row: LoginRow, password: string, verify: (string, string) -> bool,
                         access: MemberInfo -> string, refresh: MemberInfo -> string,
                         validate: string -> Result<MemberInfo, HttpError>, other: MemberInfo)
    requires verify(password, row.loginPassword)
    requires validate(refresh(InfoOf(row))) == Ok(InfoOf(row))
    ensures var login := LoginEmployee(Some(row), password, verify, access, refresh);
      && login.Ok?
      && RefreshAccessToken(login.value.token.refreshToken, login.value.member, validate, access) == Ok(login.value.token.accessToken)
      && (other.employeeId != row.employeeId ==>
            RefreshAccessToken(login.value.token.refreshToken, other, validate, access) == Err(HttpError(401, TokenMismatch)))
  {
  }
}
