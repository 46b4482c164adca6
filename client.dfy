/** The API client: its construction from options and how Mutate passes its input. */
module Client {
  import opened Results
  import opened Settings
  import opened Options
  import opened GoMaps
  import Http

  /** An `interface{}` value, by identity. */
  datatype Value = Value(id: nat)

  /** A client over `graphql.NewClient(endpoint, httpClient)`. */
  datatype Client = Client(endpoint: string, transport: Http.Transport)

  /** The user agent string the client announces by default, for library version `version`. */
  function DefaultUserAgent(version: string): string {
    "mondoo-graphql-client/" + version
  }

  /** The options NewClient puts in front of the caller's. */
  function DefaultOptions(version: string): seq<ClientOption> {
    [WithDefaultEndpoint(), WithUserAgent(DefaultUserAgent(version))]
  }

  /**
   * Because the defaults come first, a caller's endpoint or user agent
   * replaces them, and every other setting is exactly what the caller's
   * options alone produce.
   */
  lemma UserOptionsOverrideDefaults(version: string, opts: seq<ClientOption>)
    ensures var s := Fold(DefaultOptions(version) + opts);
      && s.endpoint == Last(opts, WritesEndpoint, EndpointUS)
      && s.userAgent == Last(opts, WritesUserAgent, DefaultUserAgent(version))
      && s == Fold(opts).(endpoint := s.endpoint, userAgent := s.userAgent)
  {
    DefaultsWrite(version);
    PrefixOverridden(DefaultOptions(version), opts, EndpointUS, DefaultUserAgent(version));
  }

  /**
   * Options `d` that write only an endpoint and a user agent are overridden by
   * whatever later options write, and leave every other field to them.
   */
  lemma PrefixOverridden(d: seq<ClientOption>, opts: seq<ClientOption>, endpoint: string, ua: string)
    requires Last(d, WritesNoAuth, false) == false
    requires Last(d, WritesEndpoint, "") == endpoint
    requires Last(d, WritesTokenSource, None) == None
    requires Last(d, WritesTokenError, None) == None
    requires Last(d, WritesUserAgent, "") == ua
    requires Last(d, WritesHTTPClient, None) == None
    ensures var s := Fold(d + opts);
      && s.endpoint == Last(opts, WritesEndpoint, endpoint)
      && s.userAgent == Last(opts, WritesUserAgent, ua)
      && s == Fold(opts).(endpoint := s.endpoint, userAgent := s.userAgent)
  {
    FoldIsLastWriterWins(d + opts);
    FoldIsLastWriterWins(opts);
    LastAppend(d, opts, WritesNoAuth, false);
    LastAppend(d, opts, WritesEndpoint, "");
    LastAppend(d, opts, WritesTokenSource, None);
    LastAppend(d, opts, WritesTokenError, None);
    LastAppend(d, opts, WritesUserAgent, "");
    LastAppend(d, opts, WritesHTTPClient, None);
  }

  /** On their own, the defaults write the US endpoint and the default user agent and nothing else. */
  lemma DefaultsWrite(version: string)
    ensures var d := DefaultOptions(version);
      && Last(d, WritesNoAuth, false) == false
      && Last(d, WritesEndpoint, "") == EndpointUS
      && Last(d, WritesTokenSource, None) == None
      && Last(d, WritesTokenError, None) == None
      && Last(d, WritesUserAgent, "") == DefaultUserAgent(version)
      && Last(d, WritesHTTPClient, None) == None
  {
    var d := DefaultOptions(version);
    assert d[..1] == [WithDefaultEndpoint()] && d[..1][..0] == [];
    assert Last(d, WritesNoAuth, false) == Last(d[..1], WritesNoAuth, false) == Last(d[..1][..0], WritesNoAuth, false);
    assert Last(d, WritesTokenSource, None) == Last(d[..1], WritesTokenSource, None)
        == Last(d[..1][..0], WritesTokenSource, None);
    assert Last(d, WritesTokenError, None) == Last(d[..1], WritesTokenError, None)
        == Last(d[..1][..0], WritesTokenError, None);
    assert Last(d, WritesHTTPClient, None) == Last(d[..1], WritesHTTPClient, None)
        == Last(d[..1][..0], WritesHTTPClient, None);
  }

  /** No option of `opts` installs credentials or disables authentication. */
  predicate NoCredentials(opts: seq<ClientOption>)
    decreases |opts|
  {
    |opts| == 0 ||
    (!opts[|opts| - 1].TokenSourceOption? && !opts[|opts| - 1].NoAuthOption? && NoCredentials(opts[..|opts| - 1]))
  }

  /**
   * Without a token-source option and without WithoutAuthentication, no client
   * is built: the defaults configure no credentials, so the transport choice
   * fails with "no authentication configured".
   */
  lemma NoCredentialsNoClient(version: string, opts: seq<ClientOption>)
    requires NoCredentials(opts)
    ensures Http.ClientFor(Fold(DefaultOptions(version) + opts)) == Err(Http.NoAuthConfigured)
  {
    DefaultsWrite(version);
    NoCredentialsAfterPrefix(DefaultOptions(version), opts, EndpointUS, DefaultUserAgent(version));
  }

  /** The same refusal after any prefix that writes only an endpoint and a user agent. */
  lemma NoCredentialsAfterPrefix(d: seq<ClientOption>, opts: seq<ClientOption>, endpoint: string, ua: string)
    requires Last(d, WritesNoAuth, false) == false
    requires Last(d, WritesEndpoint, "") == endpoint
    requires Last(d, WritesTokenSource, None) == None
    requires Last(d, WritesTokenError, None) == None
    requires Last(d, WritesUserAgent, "") == ua
    requires Last(d, WritesHTTPClient, None) == None
    requires NoCredentials(opts)
    ensures Http.ClientFor(Fold(d + opts)) == Err(Http.NoAuthConfigured)
  {
    PrefixOverridden(d, opts, endpoint, ua);
    NoCredentialsFold(opts);
    Http.NoCredentialsRefused(Fold(d + opts));
  }

  /** Options that write no credentials and do not disable authentication leave them all unset. */
  lemma {:induction false} NoCredentialsFold(opts: seq<ClientOption>)
    requires NoCredentials(opts)
    ensures Fold(opts).tokenSource.None? && Fold(opts).tokenError.None? && !Fold(opts).noAuth
    ensures !Fold(opts).skipValidation
    decreases |opts|
  {
    if |opts| > 0 {
      NoCredentialsFold(opts[..|opts| - 1]);
    }
  }

  /** A client configured with only an endpoint is refused. */
  lemma EndpointOnlyRefused(version: string, url: string)
    ensures Http.ClientFor(Fold(DefaultOptions(version) + [WithEndpoint(url)])) == Err(Http.NoAuthConfigured)
  {
    assert NoCredentials([WithEndpoint(url)]) by {
      assert [WithEndpoint(url)][..0] == [];
    }
    NoCredentialsNoClient(version, [WithEndpoint(url)]);
  }

  /** `NewClient`: the defaults, then the caller's options, through NewHttpClient. */
  method NewClient(version: string, opts: seq<ClientOption>) returns (r: Result<Client, Error>)
    ensures var built := Http.ClientFor(Fold(DefaultOptions(version) + opts));
      && (r.Ok? <==> built.Ok?)
      && (r.Err? ==> r.error == built.error)
      && (r.Ok? ==> r.value == Client(built.value.1, built.value.0))
  {
    var all := DefaultOptions(version) + opts;
    var built := Http.NewHttpClient(all);
    if built.Err? {
      return Err(built.error);
    }
    return Ok(Client(built.value.1, built.value.0));
  }

  /**
   * `Mutate` up to the request it sends: the variables map passed on, after
   * storing a non-nil input under "input" (creating the map when it is nil).
   */
  method Mutate(input: Option<Value>, variables: GoMap?<Value>) returns (sent: GoMap?<Value>)
    modifies variables
    ensures input.None? ==> sent == variables && (variables != null ==> variables.entries == old(variables.entries))
    ensures input.Some? && variables == null ==> sent != null && fresh(sent) && sent.entries == map["input" := input.value]
    ensures input.Some? && variables != null ==>
      sent == variables && sent.entries == old(variables.entries)["input" := input.value]
  {
    sent := variables;
    if input.Some? {
      if variables == null {
        sent := new GoMap<Value>.Singleton("input", input.value);
      } else {
        variables.Put("input", input.value);
      }
    }
  }
}
