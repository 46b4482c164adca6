/**
 * Building the HTTP client of the API client: folding the options into
 * settings, choosing the authenticating transport, and the transport that
 * stamps the user agent on outgoing requests.
 */
module Http {
  import opened Results
  import opened Settings
  import opened Options
  import opened GoMaps

  const UserAgentHeader := "User-Agent"
  const NoAuthConfigured := Error("no authentication configured")
  const NoTransport := Error("transport: no Transport specified")

  /** An `http.RoundTripper` the model does not look into. */
  datatype RoundTripper = DefaultTransport | OtherRoundTripper(id: nat)

  /** `parameterTransport` */
  datatype ParameterTransport = ParameterTransport(userAgent: string, base: Option<RoundTripper>)

  /** The transport `newTransport` builds: the parameter transport, possibly inside `oauth2.Transport`. */
  datatype Transport =
    | Parameters(p: ParameterTransport)
    | OAuth(inner: Transport, source: TokenSource)

  /** `newSettings`: applies the options in order to zero settings, then validates them. */
  method NewSettings(opts: seq<ClientOption>) returns (r: Result<DialSettingsRef, Error>)
    ensures r.Err? <==> Validate(Fold(opts)).Some?
    ensures r.Err? ==> r.error == Validate(Fold(opts)).value
    ensures r.Ok? ==> fresh(r.value) && r.value.settings == Fold(opts)
  {
    var o := new DialSettingsRef(Zero);
    for i := 0 to |opts|
      invariant o.settings == Fold(opts[..i])
    {
      Apply(opts[i], o);
      assert opts[..i + 1][..i] == opts[..i];
    }
    assert opts[..|opts|] == opts;
    var err := Validate(o.settings);
    if err.Some? {
      return Err(err.value);
    }
    return Ok(o);
  }

  /**
   * `newTransport`: with authentication disabled the parameter transport is
   * used as it is; otherwise a token source is required and wraps it.
   */
  function NewTransport(base: Option<RoundTripper>, s: DialSettings): (r: Result<Transport, Error>)
    ensures s.noAuth ==> r == Ok(Parameters(ParameterTransport(s.userAgent, base)))
    ensures !s.noAuth && s.tokenSource.Some? ==>
      r == Ok(OAuth(Parameters(ParameterTransport(s.userAgent, base)), s.tokenSource.value))
    ensures !s.noAuth && s.tokenSource.None? ==> r == Err(NoAuthConfigured)
    ensures r.Ok? ==> (r.value.OAuth? <==> !s.noAuth)
  {
    var param := Parameters(ParameterTransport(s.userAgent, base));
    if s.noAuth then Ok(param)
    else if s.tokenSource.Some? then Ok(OAuth(param, s.tokenSource.value))
    else Err(NoAuthConfigured)
  }

  /** What `NewHttpClient` returns for the folded settings `s`: a client's transport and the endpoint. */
  function ClientFor(s: DialSettings): Result<(Transport, string), Error> {
    if Validate(s).Some? then Err(Validate(s).value)
    else
      match NewTransport(Some(DefaultTransport), s)
      case Err(e) => Err(e)
      case Ok(t) => Ok((t, s.endpoint))
  }

  /** The `*http.Client` built never depends on the HTTPClient setting. */
  lemma ClientForIgnoresHTTPClient(s: DialSettings, c: Option<HttpClient>)
    ensures ClientFor(s.(httpClient := c)) == ClientFor(s)
  {
  }

  /**
   * A client is built exactly when the folded settings validate and either
   * disable authentication or carry a token source; the endpoint is the folded
   * one, unchanged.
   */
  lemma ClientForOutcome(opts: seq<ClientOption>)
    ensures var s := Fold(opts);
      && (ClientFor(s).Ok? <==>
           s.tokenError.None? && (if s.noAuth then s.tokenSource.None? else s.tokenSource.Some?))
      && (ClientFor(s).Ok? ==> ClientFor(s).value.1 == Last(opts, WritesEndpoint, ""))
      && (ClientFor(s).Ok? ==> (ClientFor(s).value.0.OAuth? <==> !s.noAuth))
  {
    FoldIsLastWriterWins(opts);
  }

  /** Settings with no credentials that do not disable authentication are refused by newTransport. */
  lemma NoCredentialsRefused(s: DialSettings)
    requires !s.skipValidation && !s.noAuth && s.tokenSource.None? && s.tokenError.None?
    ensures ClientFor(s) == Err(NoAuthConfigured)
  {
  }

  /** `NewHttpClient` */
  method NewHttpClient(opts: seq<ClientOption>) returns (r: Result<(Transport, string), Error>)
    ensures r == ClientFor(Fold(opts))
  {
    var settings := NewSettings(opts);
    if settings.Err? {
      return Err(settings.error);
    }
    var trans := NewTransport(Some(DefaultTransport), settings.value.settings);
    if trans.Err? {
      return Err(trans.error);
    }
    return Ok((trans.value, settings.value.settings.endpoint));
  }

  // ---------------------------------------------------------------------------
  // parameterTransport.RoundTrip

  /** An `*http.Request`; its header map is shared by reference and may be nil. */
  datatype Request = Request(verb: string, url: string, header: GoMap?<seq<string>>)

  /** The entries of a possibly nil header map. */
  function Entries(h: GoMap?<seq<string>>): map<string, seq<string>>
    reads h
  {
    if h == null then map[] else h.entries
  }

  /**
   * `RoundTrip`: without a base transport it fails; otherwise it forwards a
   * copy of the request whose header is a new map holding every original
   * entry, with User-Agent replaced when a user agent is configured. The
   * original request's header map is not written (the method modifies nothing
   * that existed before).
   */
  method RoundTrip(t: ParameterTransport, req: Request) returns (forwarded: Result<Request, Error>)
    ensures t.base.None? <==> forwarded.Err?
    ensures forwarded.Err? ==> forwarded.error == NoTransport
    ensures forwarded.Ok? ==>
      var out := forwarded.value;
      && out.verb == req.verb && out.url == req.url
      && out.header != null && fresh(out.header)
      && out.header.entries == (if t.userAgent != "" then Entries(req.header)[UserAgentHeader := [t.userAgent]]
                                else Entries(req.header))
  {
    if t.base.None? {
      return Err(NoTransport);
    }
    var src := Entries(req.header);
    var h := new GoMap<seq<string>>.Make();
    var pending := src.Keys;
    while pending != {}
      invariant pending <= src.Keys
      invariant h.entries == map k | k in src.Keys - pending :: src[k]
      decreases pending
    {
      var k :| k in pending;
      h.Put(k, src[k]);
      pending := pending - {k};
    }
    assert h.entries == src;
    if t.userAgent != "" {
      h.Put(UserAgentHeader, [t.userAgent]);
    }
    return Ok(req.(header := h));
  }

  /** Every header of the original request reaches the base transport, unchanged unless it is User-Agent. */
  lemma ForwardedHeaderKeepsEntries(original: map<string, seq<string>>, userAgent: string)
    ensures var out := if userAgent != "" then original[UserAgentHeader := [userAgent]] else original;
      && original.Keys <= out.Keys
      && (forall k :: k in original && k != UserAgentHeader ==> out[k] == original[k])
      && (userAgent != "" ==> out[UserAgentHeader] == [userAgent])
      && (userAgent == "" ==> out == original)
  {
  }
}
