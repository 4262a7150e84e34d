/**
 * The login screen's view model: registration answers in plain text carrying
 * the generated password, login answers with the session token.
 */
module Auth {
  import Models
  import Remote
  import opened Strings

  const PASSWORD_MARK := "password: '"
  const QUOTE := "'"
  const UNKNOWN_PASSWORD := "Unknown password"
  const UNKNOWN_ERROR := "Unknown error"
  const REGISTRATION_FAILED := "Registration failed: "
  const LOGIN_FAILED := "Login failed: "

  /** `registerUser(name)` and `loginUser({"name": …, "pwd": …})`, both answering a plain-text body. */
  datatype AuthApi = AuthApi(
    registerUser: string -> Remote.Reply<string>,
    loginUser: map<string, string> -> Remote.Reply<string>)

  datatype AuthState = Idle | Registered(password: string) | LoggedIn(token: string) | Error(message: string)

  /** The text after the first password marker, up to the next single quote. */
  function ExtractPassword(body: string): string {
    SubstringBefore(SubstringAfter(body, PASSWORD_MARK), QUOTE)
  }

  function LoginRequest(username: string, password: string): (request: map<string, string>)
    ensures request.Keys == {"name", "pwd"}
    ensures request["name"] == username && request["pwd"] == password
  {
    map["name" := username, "pwd" := password]
  }

  /** The state register ends in for a reply. */
  function RegisterOutcome(response: Remote.Reply<string>): AuthState {
    match response
    case Ok(body) =>
      Registered(match body case Some(b) => ExtractPassword(b) case None => UNKNOWN_PASSWORD)
    case HttpError(_, reason) => Error(REGISTRATION_FAILED + reason)
    case Thrown(message) => Error(message.GetOr(UNKNOWN_ERROR))
  }

  /** The state login ends in for a reply. */
  function LoginOutcome(response: Remote.Reply<string>): AuthState {
    match response
    case Ok(body) => LoggedIn(body.GetOr(""))
    case HttpError(_, reason) => Error(LOGIN_FAILED + reason)
    case Thrown(message) => Error(message.GetOr(UNKNOWN_ERROR))
  }

  predicate NoQuote(s: string) {
    forall i | 0 <= i < |s| :: s[i] != '\''
  }

  /** The first quote of `p + "'" + rest` ends `p`, when `p` has none. */
  lemma QuoteAfter(p: string, rest: string)
    requires NoQuote(p)
    ensures IndexOf(p + QUOTE + rest, QUOTE) == Models.Some(|p|)
  {
    var s := p + QUOTE + rest;
    assert OccursAt(s, QUOTE, |p|) by {
      assert s[|p|..|p| + 1] == [s[|p|]];
    }
    forall k: nat | k < |p|
      ensures !OccursAt(s, QUOTE, k)
    {
      assert s[k..k + 1] == [p[k]];
    }
  }

  /**
   * The marker's first occurrence in `prefix + PASSWORD_MARK + tail` is right
   * after `prefix` when `prefix` does not hold it: its only quote is its last
   * character, so no occurrence can start inside `prefix` and end inside the marker.
   */
  lemma MarkAfter(prefix: string, tail: string)
    requires !Contains(prefix, PASSWORD_MARK)
    ensures IndexOf(prefix + PASSWORD_MARK + tail, PASSWORD_MARK) == Models.Some(|prefix|)
  {
    var s := prefix + PASSWORD_MARK + tail;
    assert |PASSWORD_MARK| == 11 && PASSWORD_MARK[10] == '\'';
    assert forall i | 0 <= i < 10 :: PASSWORD_MARK[i] != '\'';
    assert s[|prefix|..|prefix| + |PASSWORD_MARK|] == PASSWORD_MARK;
    assert OccursAt(s, PASSWORD_MARK, |prefix|);
    forall k: nat | k < |prefix|
      ensures !OccursAt(s, PASSWORD_MARK, k)
    {
      if k + 11 <= |prefix| {
        assert s[k..k + 11] == prefix[k..k + 11];
        assert !OccursAt(prefix, PASSWORD_MARK, k);
      } else {
        assert s[k + 10] == PASSWORD_MARK[k + 10 - |prefix|];
        assert k + 11 <= |s| ==> s[k..k + 11][10] == s[k + 10] != PASSWORD_MARK[10];
      }
    }
  }

  /**
   * A body announcing `password: '<p>'` yields `p`, whatever precedes the
   * first announcement and whatever follows the closing quote.
   */
  lemma ExtractsQuotedPassword(prefix: string, p: string, rest: string)
    requires !Contains(prefix, PASSWORD_MARK) && NoQuote(p)
    ensures ExtractPassword(prefix + PASSWORD_MARK + p + QUOTE + rest) == p
  {
    var tail := p + QUOTE + rest;
    var s := prefix + PASSWORD_MARK + tail;
    assert prefix + PASSWORD_MARK + p + QUOTE + rest == s;
    MarkAfter(prefix, tail);
    assert SubstringAfter(s, PASSWORD_MARK) == tail;
    QuoteAfter(p, rest);
  }

  /** Without the announcement the body is read up to its first quote, or whole if it has none. */
  lemma ExtractWithoutMark(body: string)
    requires !Contains(body, PASSWORD_MARK)
    ensures ExtractPassword(body) == SubstringBefore(body, QUOTE)
    ensures NoQuote(body) ==> ExtractPassword(body) == body
  {
    if NoQuote(body) {
      forall k: nat
        ensures !OccursAt(body, QUOTE, k)
      {
        assert k + 1 <= |body| ==> body[k..k + 1] == [body[k]];
      }
    }
  }

  /** Register succeeds exactly on a 2xx reply, and a failure names its cause. */
  lemma RegisterOutcomes(response: Remote.Reply<string>)
    ensures RegisterOutcome(response).Registered? <==> response.Ok?
    ensures response.Ok? && response.body.None? ==> RegisterOutcome(response) == Registered(UNKNOWN_PASSWORD)
    ensures response.HttpError? ==> RegisterOutcome(response) == Error(REGISTRATION_FAILED + response.reason)
  {
  }

  /** Login succeeds exactly on a 2xx reply, with the body as the token. */
  lemma LoginOutcomes(response: Remote.Reply<string>)
    ensures LoginOutcome(response).LoggedIn? <==> response.Ok?
    ensures response.Ok? ==> LoginOutcome(response).token == response.body.GetOr("")
    ensures response.HttpError? ==> LoginOutcome(response) == Error(LOGIN_FAILED + response.reason)
  {
  }

  class AuthViewModel {
    const api: AuthApi
    var authState: AuthState

    constructor (api: AuthApi)
      ensures this.api == api && authState == Idle
    {
      this.api := api;
      authState := Idle;
    }

    method Register(username: string)
      modifies this
      ensures authState == RegisterOutcome(api.registerUser(username))
    {
      var response := api.registerUser(username);
      match response {
        case Ok(body) =>
          var password := match body case Some(b) => ExtractPassword(b) case None => UNKNOWN_PASSWORD;
          authState := Registered(password);
        case HttpError(_, reason) =>
          authState := Error(REGISTRATION_FAILED + reason);
        case Thrown(message) =>
          authState := Error(message.GetOr(UNKNOWN_ERROR));
      }
    }

    method Login(username: string, password: string)
      modifies this
      ensures authState == LoginOutcome(api.loginUser(LoginRequest(username, password)))
    {
      var loginRequest := LoginRequest(username, password);
      var response := api.loginUser(loginRequest);
      match response {
        case Ok(body) =>
          authState := LoggedIn(body.GetOr(""));
        case HttpError(_, reason) =>
          authState := Error(LOGIN_FAILED + reason);
        case Thrown(message) =>
          authState := Error(message.GetOr(UNKNOWN_ERROR));
      }
    }
  }
}
