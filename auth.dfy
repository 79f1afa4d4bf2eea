/** The API-key guard of the backend (backend/app/auth.py). The value of
    the `X-API-Key` request header is `None` when the header is absent; the
    key the server is configured with is a parameter. */
module Auth {
  import opened Wrappers

  datatype AuthError = AuthError(status: nat, detail: string)

  const MissingKey: AuthError := AuthError(401, "API key is missing")
  const InvalidKey: AuthError := AuthError(403, "Invalid API key")

  /** `APIKeyHeader(name="X-API-Key", auto_error=False)`: the header's
      value, or `None` when the header is absent or has an empty value. */
  function ApiKeyHeader(header: Option<string>): (k: Option<string>)
    ensures k.Some? <==> header.Some? && header.value != ""
    ensures k.Some? ==> k == header
  {
    if header.None? || header.value == "" then None else header
  }

  /** `verify_api_key` behind `APIKeyHeader`: an absent or empty header is
      401, a wrong key is 403, and the request passes, carrying its key,
      exactly when the header holds the configured, non-empty key. */
  function VerifyApiKey(header: Option<string>, configured: string): (r: Result<string, AuthError>)
    ensures r.Ok? <==> header == Some(configured) && configured != ""
    ensures r.Ok? ==> r.value == configured
    ensures header.None? || header == Some("") ==> r == Err(MissingKey)
    ensures header.Some? && header.value != "" && header.value != configured ==> r == Err(InvalidKey)
  {
    match ApiKeyHeader(header)
    case None => Err(MissingKey)
    case Some(key) => if key != configured then Err(InvalidKey) else Ok(key)
  }
}
