/** Bearer-token authentication: the token is read from the Authorization
    header, a view wrapped by `require_auth` runs only with a non-empty
    token, and `verify_token` accepts any non-empty token. */
module Authentication {
  import opened Wrappers
  import opened Strings
  import opened Exceptions

  /** The request meta key of the Authorization header. */
  const AuthHeader := "HTTP_AUTHORIZATION"

  const Bearer := "Bearer "

  /** `request.META.get('HTTP_AUTHORIZATION', '')`. */
  function Header(meta: map<string, string>): string {
    if AuthHeader in meta then meta[AuthHeader] else ""
  }

  /** `get_auth_token(request)`: what follows "Bearer " (exactly that, case
      and space included) at the start of the header; None otherwise,
      including when the header is missing. */
  function GetAuthToken(meta: map<string, string>): (r: Option<string>)
    ensures r.Some? <==> StartsWith(Header(meta), Bearer)
    ensures r.Some? ==> Bearer + r.value == Header(meta)
  {
    var h := Header(meta);
    if StartsWith(h, Bearer) then
      assert h == h[..7] + h[7..];
      Some(h[7..])
    else None
  }

  /** Every token written after "Bearer " is read back unchanged. */
  lemma {:induction false} BearerRoundTrip(t: string)
    ensures GetAuthToken(map[AuthHeader := Bearer + t]) == Some(t)
  {
    var h := Bearer + t;
    assert h[..7] == Bearer;
    assert h[7..] == t;
  }

  /** The scheme is case-sensitive: a lower-case "bearer " is no token. */
  lemma {:induction false} LowerCaseSchemeRejected(t: string)
    ensures GetAuthToken(map[AuthHeader := "bearer " + t]).None?
  {
    var h := "bearer " + t;
    assert h[0] == 'b';
  }

  /** `require_auth(view)` applied to a request: the view runs with the
      token stored as `request.auth_token` when the token is present and
      non-empty; otherwise Unauthorized("Missing authentication token"),
      status 401, and the view does not run. */
  function RequireAuth<R>(meta: map<string, string>, view: string -> R): (r: Result<R, AppError>)
    ensures r.Ok? <==> GetAuthToken(meta).Some? && GetAuthToken(meta).value != ""
    ensures r.Ok? ==> r.value == view(GetAuthToken(meta).value)
    ensures r.Err? ==> r.error.kind == Unauthorized && r.error.status == 401
                       && r.error.message == "Missing authentication token"
  {
    match GetAuthToken(meta)
    case None => Err(Raise(Unauthorized, "Missing authentication token"))
    case Some(token) =>
      if token == "" then Err(Raise(Unauthorized, "Missing authentication token"))
      else Ok(view(token))
  }

  /** The header "Bearer " alone carries an empty token and is refused. */
  lemma {:induction false} BareSchemeRefused<R>(view: string -> R)
    ensures RequireAuth(map[AuthHeader := Bearer], view).Err?
  {
    assert GetAuthToken(map[AuthHeader := Bearer + ""]) == Some("") by {
      BearerRoundTrip("");
    }
    assert Bearer + "" == Bearer;
  }

  /** `verify_token(token)`: the claims `{"token": token}` for a non-empty
      token, Unauthorized("Invalid token") for an empty one. */
  function VerifyToken(token: string): (r: Result<map<string, string>, AppError>)
    ensures r.Ok? <==> token != ""
    ensures r.Ok? ==> r.value.Keys == {"token"} && r.value["token"] == token
    ensures r.Err? ==> r.error.kind == Unauthorized && r.error.status == 401 && r.error.message == "Invalid token"
  {
    if token == "" then Err(Raise(Unauthorized, "Invalid token"))
    else Ok(map["token" := token])
  }

  /** A token that got past `require_auth` always verifies, and its claims
      carry the header's token. */
  lemma {:induction false} AdmittedTokenVerifies(meta: map<string, string>)
    requires RequireAuth(meta, (t: string) => t).Ok?
    ensures var t := RequireAuth(meta, (t: string) => t).value;
      VerifyToken(t).Ok? && Bearer + VerifyToken(t).value["token"] == Header(meta)
  {
  }
}
