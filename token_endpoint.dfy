/** The token endpoint: a small HTTP handler that trades the stored refresh
    token for a fresh access token and hands it to the browser, with CORS
    headers on every answer. */
module TokenEndpoint {
  import opened Http
  import opened Text
  import opened Credentials

  /** The three environment variables; `None` when a variable is not set. */
  datatype Env = Env(clientId: Option<string>, clientSecret: Option<string>, refreshToken: Option<string>)

  /** JavaScript truthiness of an environment value: set and not empty. */
  predicate Truthy(v: Option<string>)
    ensures !Truthy(v) <==> v == None || v == Some("")
  {
    v.Some? && v.value != ""
  }

  /** The guard of `getAccessToken`: once it passes, all three values are set
      and none is empty. */
  predicate HasCredentials(env: Env)
    ensures HasCredentials(env) ==>
      && env.clientId.Some? && env.clientId.value != ""
      && env.clientSecret.Some? && env.clientSecret.value != ""
      && env.refreshToken.Some? && env.refreshToken.value != ""
  {
    Truthy(env.clientId) && Truthy(env.clientSecret) && Truthy(env.refreshToken)
  }

  const MissingCredentials :=
    "Spotify credentials (client_id, client_secret, refresh_token) are not set as environment variables in Val Town."

  /** The parsed success body of the token service; `accessToken` is `None`
      when the body has no `access_token`. */
  datatype TokenData = TokenData(accessToken: Option<string>)

  /** A value, or the message of the error thrown instead. */
  datatype Result<T> = Ok(value: T) | Err(message: string)

  /** The `Basic` credential text of the token request, built once the guard
      has passed, reads back at the token service as the stored id and secret
      whenever the id has no colon. */
  lemma AuthorizationReadsBack(env: Env)
    requires HasCredentials(env)
    requires forall i :: 0 <= i < |env.clientId.value| ==> env.clientId.value[i] != ':'
    ensures SplitUserPass(UserPass(env.clientId.value, env.clientSecret.value)) ==
      Some((env.clientId.value, env.clientSecret.value))
  {
    SplitUserPassRoundTrip(env.clientId.value, env.clientSecret.value);
  }

  /** `getAccessToken`: the guard on the three variables, then one request to
      the token service whose outcome is `reply`. A non-2xx answer is thrown
      with the status and the service's description; a thrown error is
      re-thrown unchanged. */
  function GetAccessToken(env: Env, reply: Reply<TokenData>): (r: Result<TokenData>)
    ensures !HasCredentials(env) ==> r == Err(MissingCredentials)
    ensures r.Ok? <==> HasCredentials(env) && reply.Answered? && IsOk(reply.status)
    ensures r.Ok? ==> r.value == reply.data
    ensures HasCredentials(env) && reply.Threw? ==> r == Err(reply.error)
    ensures HasCredentials(env) && reply.Answered? && !IsOk(reply.status) ==>
      r == Err("Spotify token error: " + IntString(reply.status) + " - " + reply.reason)
  {
    if !HasCredentials(env) then Err(MissingCredentials)
    else match reply
      case Threw(error) => Err(error)
      case Answered(status, reason, data) =>
        if !IsOk(status) then Err("Spotify token error: " + IntString(status) + " - " + reason)
        else Ok(data)
  }

  /** The header set every answer carries. */
  const CorsHeaders: seq<(string, string)> := [
    ("Content-Type", "application/json"),
    ("Access-Control-Allow-Origin", "*"),
    ("Access-Control-Allow-Methods", "GET, OPTIONS"),
    ("Access-Control-Allow-Headers", "Content-Type")
  ]

  /** The answer bodies: `null`, `{"error": ...}`, and `{"access_token": ...}`
      (which serialises to `{}` when the token is `undefined`). */
  datatype Body = NullBody | ErrorBody(error: string) | TokenBody(accessToken: Option<string>)

  datatype Response = Response(status: int, headers: seq<(string, string)>, body: Body)

  /** The default export: dispatch on the request method `verb`, then map the token
      outcome to 200 or 500. `reply` is what the token service would answer;
      it is consulted only on a GET with all three variables set. */
  function Handle(verb: string, env: Env, reply: Reply<TokenData>): (resp: Response)
    ensures resp.headers == CorsHeaders
    ensures resp.status in {200, 204, 405, 500}
    ensures verb == "OPTIONS" ==> resp.status == 204 && resp.body == NullBody
    ensures verb != "OPTIONS" && verb != "GET" ==>
      resp.status == 405 && resp.body == ErrorBody("Method Not Allowed")
    ensures verb == "GET" && !HasCredentials(env) ==>
      resp.status == 500 && resp.body == ErrorBody("Failed to retrieve Spotify access token.")
    ensures verb == "GET" && !(reply.Answered? && IsOk(reply.status)) ==>
      resp.status == 500 && resp.body == ErrorBody("Failed to retrieve Spotify access token.")
    ensures resp.status == 200 <==> verb == "GET" && HasCredentials(env) && reply.Answered? && IsOk(reply.status)
    ensures resp.status == 200 ==> resp.body == TokenBody(reply.data.accessToken)
  {
    if verb == "OPTIONS" then Response(204, CorsHeaders, NullBody)
    else if verb != "GET" then Response(405, CorsHeaders, ErrorBody("Method Not Allowed"))
    else match GetAccessToken(env, reply)
      case Ok(tokenData) => Response(200, CorsHeaders, TokenBody(tokenData.accessToken))
      case Err(_) => Response(500, CorsHeaders, ErrorBody("Failed to retrieve Spotify access token."))
  }

  /** A preflight or a refused method never depends on the environment or on
      the token service: the same answer comes back whatever they hold. */
  lemma NonGetIgnoresTokenService(verb: string, env1: Env, reply1: Reply<TokenData>, env2: Env, reply2: Reply<TokenData>)
    requires verb != "GET"
    ensures Handle(verb, env1, reply1) == Handle(verb, env2, reply2)
  {
  }

  /** A successful GET passes the service's `access_token` through untouched,
      and only that field. */
  lemma GetPassesTokenThrough(env: Env, status: int, reason: string, token: string)
    requires HasCredentials(env) && IsOk(status)
    ensures Handle("GET", env, Answered(status, reason, TokenData(Some(token)))) ==
      Response(200, CorsHeaders, TokenBody(Some(token)))
  {
  }
}
