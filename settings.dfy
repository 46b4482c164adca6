/** The settings record a client is configured through, and its validation. */
module Settings {
  import opened Results

  /** An `oauth2.TokenSource`: a static bearer token, or one the model does not look into. */
  datatype TokenSource = StaticTokenSource(accessToken: string) | OpaqueTokenSource(id: nat)

  /** An `*http.Client`, by identity. */
  datatype HttpClient = HttpClient(id: nat)

  /** A Go `error`, by its message. */
  datatype Error = Error(message: string)

  /** `DialSettings`; nil interfaces and pointers are `None`. */
  datatype DialSettings = DialSettings(
    skipValidation: bool,
    noAuth: bool,
    endpoint: string,
    tokenSource: Option<TokenSource>,
    tokenError: Option<Error>,
    userAgent: string,
    httpClient: Option<HttpClient>)

  /** The zero value `var o DialSettings`. */
  const Zero := DialSettings(false, false, "", None, None, "", None)

  const BothAuthError := Error("cannot use both WithoutAuthentication and WithTokenSource in combination")

  /**
   * `Validate`: nothing is checked when validation is skipped; otherwise a
   * recorded token error wins, and then disabled authentication together with
   * a token source is refused.
   */
  function Validate(ds: DialSettings): (r: Option<Error>)
    ensures ds.skipValidation ==> r == None
    ensures !ds.skipValidation && ds.tokenError.Some? ==> r == ds.tokenError
    ensures !ds.skipValidation && ds.tokenError.None? && ds.noAuth && ds.tokenSource.Some? ==> r == Some(BothAuthError)
    ensures r == None <==> ds.skipValidation || (ds.tokenError.None? && !(ds.noAuth && ds.tokenSource.Some?))
  {
    if ds.skipValidation then None
    else if ds.tokenError.Some? then ds.tokenError
    else if ds.noAuth && ds.tokenSource.Some? then Some(BothAuthError)
    else None
  }
}
