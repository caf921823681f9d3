/**
  The global access-token gate of `app/core/dependencies.py`: whitelisted paths pass untouched;
  any other request needs a non-empty `Authorization` value, from which a `Bearer ` prefix is
  stripped before the token validator (an oracle) decides.
*/
module Dependencies {
  import opened Outcomes
  import opened Text
  import opened Schemas

  const NoAuthUrls := ["/login", "/signup", "/refresh", "/docs", "/openapi.json", "/redoc"]
  const LoginRequired := "로그인이 필요한 서비스 입니다."
  const BearerPrefix := "Bearer "

  /** `token.split(" ")[1]` when the token starts with `Bearer `; otherwise the token itself. */
  function StripBearer(token: string): string {
    if BearerPrefix <= token then
      SplitPrefix("Bearer", ' ', token[|BearerPrefix|..]);
      assert token == "Bearer" + [' '] + token[|BearerPrefix|..];
      Split(token, ' ')[1]
    else token
  }

  /** A prefixed token becomes the first space-separated field after the prefix (`""` for `Bearer ` alone). */
  lemma StripBearerPrefixed(t: string)
    ensures StripBearer(BearerPrefix + t) == Split(t, ' ')[0]
  {
    var token := BearerPrefix + t;
    assert BearerPrefix == "Bearer" + [' '];
    assert token[|BearerPrefix|..] == t;
    SecondField("Bearer", t);
  }

  /** The second space-separated field of a word, a space and a rest is the rest's first field. */
  lemma SecondField(p: string, t: string)
    requires ' ' !in p
    ensures |Split(p + [' '] + t, ' ')| >= 2 && Split(p + [' '] + t, ' ')[1] == Split(t, ' ')[0]
  {
    SplitPrefix(p, ' ', t);
  }

  /** A prefixed token without a further space becomes the whole rest; any other token is kept as sent. */
  lemma StripBearerMeaning(t: string)
    ensures ' ' !in t ==> StripBearer(BearerPrefix + t) == t
    ensures !(BearerPrefix <= t) ==> StripBearer(t) == t
  {
    if ' ' !in t {
      StripBearerPrefixed(t);
      SplitNone(t, ' ');
    }
  }

  /**
    `check_access_token`: `Ok` lets the request through; `Err` is the raised error. The token is
    `None` when the header is missing.
  */
  function CheckAccessToken(path: string, token: Option<string>, validate: string -> Result<MemberInfo, HttpError>)
    : (r: Result<(), HttpError>)
    ensures path in NoAuthUrls ==> r.Ok?
    ensures path !in NoAuthUrls && (token.None? || token.value == "") ==> r == Err(HttpError(401, LoginRequired))
    ensures path !in NoAuthUrls && token.Some? && token.value != "" ==>
      (r.Ok? <==> validate(StripBearer(token.value)).Ok?)
      && (r.Err? ==> r.error == validate(StripBearer(token.value)).error)
  {
    if path in NoAuthUrls then Ok(())
    else if token.None? || token.value == "" then Err(HttpError(401, LoginRequired))
    else
      match validate(StripBearer(token.value))
      case Err(e) => Err(e)
      case Ok(_) => Ok(())
  }

  /** The validator sees exactly the token the client sent, without a `Bearer ` prefix. */
  lemma ValidatorSeesBareToken(path: string, t: string, validate: string -> Result<MemberInfo, HttpError>)
    requires path !in NoAuthUrls && t != "" && ' ' !in t
    ensures CheckAccessToken(path, Some(BearerPrefix + t), validate).Ok? <==> validate(t).Ok?
    ensures CheckAccessToken(path, Some(t), validate).Ok? <==> validate(t).Ok?
  {
    StripBearerMeaning(t);
    assert !(BearerPrefix <= t) by { assert BearerPrefix[6] == ' '; }
  }
}
