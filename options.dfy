/** Client options and how each one writes the settings it is applied to. */
module Options {
  import opened Results
  import opened Settings

  const EndpointUS := "https://us.api.mondoo.com/query"
  const EndpointEU := "https://eu.api.mondoo.com/query"

  /** The option types behind the `ClientOption` interface. */
  datatype ClientOption =
    | UserAgentOption(ua: string)                                                    // withUA
    | HTTPClientOption(client: Option<HttpClient>)                                   // withHTTPClient
    | TokenSourceOption(endpoint: string, ts: Option<TokenSource>, err: Option<Error>) // withTokenSource
    | NoAuthOption                                                                   // withoutAuthentication
    | EndpointOption(url: string)                                                    // withEndpoint

  /** A `*DialSettings` that options are applied to. */
  class DialSettingsRef {
    var settings: DialSettings

    constructor (s: DialSettings)
      ensures settings == s
    {
      settings := s;
    }
  }

  /** The settings after applying `opt` to `s`. */
  function Applied(opt: ClientOption, s: DialSettings): DialSettings {
    match opt
    case UserAgentOption(ua) => s.(userAgent := ua)
    case HTTPClientOption(c) => s.(httpClient := c)
    case TokenSourceOption(e, ts, err) =>
      s.(tokenSource := ts, tokenError := err, endpoint := if e != "" then e + "/query" else s.endpoint)
    case NoAuthOption => s.(noAuth := true)
    case EndpointOption(url) => s.(endpoint := url)
  }

  /** `Apply`: each option writes its own fields of the settings and leaves the rest alone. */
  method Apply(opt: ClientOption, o: DialSettingsRef)
    modifies o
    ensures o.settings == Applied(opt, old(o.settings))
    ensures opt.UserAgentOption? ==> o.settings == old(o.settings).(userAgent := opt.ua)
    ensures opt.HTTPClientOption? ==> o.settings == old(o.settings).(httpClient := opt.client)
    ensures opt.TokenSourceOption? ==>
      o.settings == old(o.settings).(tokenSource := opt.ts, tokenError := opt.err,
                                     endpoint := if opt.endpoint != "" then opt.endpoint + "/query"
                                                 else old(o.settings).endpoint)
    ensures opt.NoAuthOption? ==> o.settings == old(o.settings).(noAuth := true)
    ensures opt.EndpointOption? ==> o.settings == old(o.settings).(endpoint := opt.url)
  {
    match opt
    case UserAgentOption(ua) =>
      o.settings := o.settings.(userAgent := ua);
    case HTTPClientOption(c) =>
      o.settings := o.settings.(httpClient := c);
    case TokenSourceOption(e, ts, err) =>
      o.settings := o.settings.(tokenSource := ts, tokenError := err);
      if e != "" {
        o.settings := o.settings.(endpoint := e + "/query");
      }
    case NoAuthOption =>
      o.settings := o.settings.(noAuth := true);
    case EndpointOption(url) =>
      o.settings := o.settings.(endpoint := url);
  }

  // ---------------------------------------------------------------------------
  // Constructors

  function WithUserAgent(ua: string): (opt: ClientOption)
    ensures forall d :: Applied(opt, d) == d.(userAgent := ua)
  {
    UserAgentOption(ua)
  }

  function WithHTTPClient(client: Option<HttpClient>): (opt: ClientOption)
    ensures forall d :: Applied(opt, d) == d.(httpClient := client)
  {
    HTTPClientOption(client)
  }

  /** A token source with no endpoint and no error: the endpoint is left alone. */
  function WithTokenSource(s: Option<TokenSource>): (opt: ClientOption)
    ensures forall d :: Applied(opt, d) == d.(tokenSource := s, tokenError := None)
  {
    TokenSourceOption("", s, None)
  }

  /** A static token source for `token`, with no endpoint and no error. */
  function WithAPIToken(token: string): (opt: ClientOption)
    ensures forall d :: Applied(opt, d) == d.(tokenSource := Some(StaticTokenSource(token)), tokenError := None)
  {
    TokenSourceOption("", Some(StaticTokenSource(token)), None)
  }

  /** What `signer.NewServiceAccountTokenSource` yields for valid credentials. */
  datatype ServiceAccount = ServiceAccount(source: TokenSource, apiEndpoint: string)

  /**
   * `WithServiceAccount`, given what the signer made of the credentials: on
   * failure the error is recorded with a nil token source.
   */
  function WithServiceAccount(signed: Result<ServiceAccount, Error>): (opt: ClientOption)
    ensures signed.Err? ==> forall d :: Applied(opt, d) == d.(tokenSource := None, tokenError := Some(signed.error))
  {
    match signed
    case Err(e) => TokenSourceOption("", None, Some(e))
    case Ok(sa) => TokenSourceOption(sa.apiEndpoint, Some(sa.source), None)
  }

  /** `WithServiceAccountFile`, given the outcome of reading the file and the signer. */
  function WithServiceAccountFile(read: Result<seq<bv8>, Error>, signer: seq<bv8> -> Result<ServiceAccount, Error>): (opt: ClientOption)
    ensures read.Err? ==> opt == WithServiceAccount(Err(read.error))
    ensures read.Ok? ==> opt == WithServiceAccount(signer(read.value))
  {
    match read
    case Err(e) => TokenSourceOption("", None, Some(e))
    case Ok(data) => WithServiceAccount(signer(data))
  }

  function WithoutAuthentication(): (opt: ClientOption)
    ensures forall d :: Applied(opt, d) == d.(noAuth := true)
  {
    NoAuthOption
  }

  function WithEndpoint(url: string): (opt: ClientOption)
    ensures forall d :: Applied(opt, d) == d.(endpoint := url)
  {
    EndpointOption(url)
  }

  function UseUSRegion(): (opt: ClientOption)
    ensures opt == WithEndpoint(EndpointUS)
  {
    EndpointOption(EndpointUS)
  }

  function UseEURegion(): (opt: ClientOption)
    ensures opt == WithEndpoint(EndpointEU)
  {
    EndpointOption(EndpointEU)
  }

  function WithDefaultEndpoint(): (opt: ClientOption)
    ensures opt == UseUSRegion()
  {
    UseUSRegion()
  }

  // ---------------------------------------------------------------------------
  // Applying a list of options

  /** The settings after applying `opts` left to right to the zero settings. */
  function Fold(opts: seq<ClientOption>): DialSettings
    decreases |opts|
  {
    if |opts| == 0 then Zero else Applied(opts[|opts| - 1], Fold(opts[..|opts| - 1]))
  }

  /** The value written by the last option of `opts` that writes anything per `w`, or `none`. */
  function Last<T>(opts: seq<ClientOption>, w: ClientOption -> Option<T>, none: T): T
    decreases |opts|
  {
    if |opts| == 0 then none
    else
      match w(opts[|opts| - 1])
      case Some(v) => v
      case None => Last(opts[..|opts| - 1], w, none)
  }

  // What each option writes to each field.
  function WritesUserAgent(opt: ClientOption): Option<string> {
    if opt.UserAgentOption? then Some(opt.ua) else None
  }
  function WritesHTTPClient(opt: ClientOption): Option<Option<HttpClient>> {
    if opt.HTTPClientOption? then Some(opt.client) else None
  }
  function WritesTokenSource(opt: ClientOption): Option<Option<TokenSource>> {
    if opt.TokenSourceOption? then Some(opt.ts) else None
  }
  function WritesTokenError(opt: ClientOption): Option<Option<Error>> {
    if opt.TokenSourceOption? then Some(opt.err) else None
  }
  function WritesEndpoint(opt: ClientOption): Option<string> {
    match opt
    case EndpointOption(url) => Some(url)
    case TokenSourceOption(e, _, _) => if e != "" then Some(e + "/query") else None
    case _ => None
  }
  function WritesNoAuth(opt: ClientOption): Option<bool> {
    if opt.NoAuthOption? then Some(true) else None
  }

  /** The per-field description of the settings `opts` produce: for every field the last writer wins. */
  function LastWriters(opts: seq<ClientOption>): DialSettings {
    DialSettings(
      false,
      Last(opts, WritesNoAuth, false),
      Last(opts, WritesEndpoint, ""),
      Last(opts, WritesTokenSource, None),
      Last(opts, WritesTokenError, None),
      Last(opts, WritesUserAgent, ""),
      Last(opts, WritesHTTPClient, None))
  }

  /** Applying options in order gives, field by field, the value of the last option writing it. */
  lemma {:induction false} FoldIsLastWriterWins(opts: seq<ClientOption>)
    ensures Fold(opts) == LastWriters(opts)
    decreases |opts|
  {
    if |opts| > 0 {
      FoldIsLastWriterWins(opts[..|opts| - 1]);
    }
  }

  /** NoAuth is set exactly when some option disables authentication, and no option skips validation. */
  lemma {:induction false} FoldNoAuth(opts: seq<ClientOption>)
    ensures Fold(opts).noAuth <==> exists i :: 0 <= i < |opts| && opts[i] == NoAuthOption
    ensures !Fold(opts).skipValidation
    decreases |opts|
  {
    if |opts| > 0 {
      var init := opts[..|opts| - 1];
      FoldNoAuth(init);
      if exists i :: 0 <= i < |init| && init[i] == NoAuthOption {
        var i :| 0 <= i < |init| && init[i] == NoAuthOption;
        assert opts[i] == NoAuthOption;
      }
      if exists i :: 0 <= i < |opts| && opts[i] == NoAuthOption {
        var i :| 0 <= i < |opts| && opts[i] == NoAuthOption;
        if i < |init| { assert init[i] == NoAuthOption; }
      }
    }
  }

  /** Later options override earlier ones: the last writer in `b` wins, else the one in `a`. */
  lemma {:induction false} LastAppend<T>(a: seq<ClientOption>, b: seq<ClientOption>, w: ClientOption -> Option<T>, none: T)
    ensures Last(a + b, w, none) == Last(b, w, Last(a, w, none))
    decreases |b|
  {
    if |b| == 0 {
      assert a + b == a;
    } else {
      assert (a + b)[..|a + b| - 1] == a + b[..|b| - 1];
      LastAppend(a, b[..|b| - 1], w, none);
    }
  }

  /**
   * A failing service account leaves its error for Validate to report, unless
   * a later option replaces the token settings.
   */
  lemma ServiceAccountErrorReported(before: seq<ClientOption>, e: Error, after: seq<ClientOption>)
    requires forall i :: 0 <= i < |after| ==> !after[i].TokenSourceOption?
    ensures Validate(Fold(before + [WithServiceAccount(Err(e))] + after)) == Some(e)
  {
    var opts := before + [WithServiceAccount(Err(e))] + after;
    FoldIsLastWriterWins(opts);
    FoldNoAuth(opts);
    LastAppend(before + [WithServiceAccount(Err(e))], after, WritesTokenError, None);
    LastNoWriter(after, WritesTokenError, Last(before + [WithServiceAccount(Err(e))], WritesTokenError, None));
  }

  /** Options none of which write a field leave the earlier value of that field. */
  lemma {:induction false} LastNoWriter<T>(opts: seq<ClientOption>, w: ClientOption -> Option<T>, none: T)
    requires forall i :: 0 <= i < |opts| ==> w(opts[i]).None?
    ensures Last(opts, w, none) == none
    decreases |opts|
  {
    if |opts| > 0 {
      LastNoWriter(opts[..|opts| - 1], w, none);
    }
  }
}
