/**
 * The validation of the `@server` settings into the server blueprint
 * (`Server::try_from` in src/core/blueprint/server.rs).
 *
 * Validation accumulates errors: each failure is a cause carrying a path of
 * segments, outermost first, and independent checks are fused so that the
 * causes of all of them are reported together. The HTTP/2 checks are the
 * exception: a missing certificate or key returns at once.
 *
 * The library parsers (IP addresses, header names and values, the CORS
 * conversion) are parameters of the model.
 */
module ServerBlueprint {
  import opened Wrappers
  import opened Strings

  datatype BlueprintError =
    | CertificateIsRequiredForHTTP2
    | KeyIsRequiredForHTTP2
    | ParsingFailed(input: string)
    | InvalidHeaderName(name: string)
    | InvalidHeaderValue(value: string)
    | ExperimentalHeaderInvalidFormat(header: string)
    | InvalidCors(message: string)

  /** One validation error and where it was found, outermost segment first. */
  datatype Cause = Cause(error: BlueprintError, trace: seq<string>)

  /** `Valid<T, BlueprintError>`: a value, or the causes of its failure. */
  type Valid<T> = Result<T, seq<Cause>>

  function Causes<T>(v: Valid<T>): seq<Cause>
  {
    if v.Err? then v.error else []
  }

  function Fail<T>(e: BlueprintError): Valid<T>
  {
    Err([Cause(e, [])])
  }

  /** `fuse`/`zip`: both sides are checked, and the causes of both are kept, left first. */
  function Fuse<A, B>(a: Valid<A>, b: Valid<B>): (r: Valid<(A, B)>)
    ensures r.Ok? <==> a.Ok? && b.Ok?
  {
    if a.Ok? && b.Ok? then Ok((a.value, b.value)) else Err(Causes(a) + Causes(b))
  }

  /**
   * A chain of `trace` calls: every cause is placed inside `path`, written
   * outermost segment first (the last `trace` call gives the first segment).
   */
  function Within<T>(v: Valid<T>, path: seq<string>): (r: Valid<T>)
    ensures r.Ok? <==> v.Ok?
    ensures r.Ok? ==> r == v
    ensures r.Err? ==> |r.error| == |v.error|
                       && forall i | 0 <= i < |v.error| :: r.error[i] == v.error[i].(trace := path + v.error[i].trace)
  {
    if v.Ok? then v
    else Err(seq(|v.error|, i requires 0 <= i < |v.error| => v.error[i].(trace := path + v.error[i].trace)))
  }

  /** `Valid::from_iter`: every element is checked; the values or all causes, in order. */
  function FromIter<A, B>(xs: seq<A>, check: A -> Valid<B>): Valid<seq<B>>
    decreases |xs|
  {
    if xs == [] then Ok([])
    else
      var rest := FromIter(xs[..|xs| - 1], check);
      var last := check(xs[|xs| - 1]);
      if rest.Ok? && last.Ok? then Ok(rest.value + [last.value]) else Err(Causes(rest) + Causes(last))
  }

  /** The elements all pass exactly when the whole does, and then the values are theirs, in order. */
  lemma {:induction false} FromIterOk<A, B>(xs: seq<A>, check: A -> Valid<B>)
    ensures FromIter(xs, check).Ok? <==> forall i | 0 <= i < |xs| :: check(xs[i]).Ok?
    ensures FromIter(xs, check).Ok? ==>
              |FromIter(xs, check).value| == |xs|
              && forall i | 0 <= i < |xs| :: FromIter(xs, check).value[i] == check(xs[i]).value
    decreases |xs|
  {
    if xs != [] {
      var prefix := xs[..|xs| - 1];
      FromIterOk(prefix, check);
      assert forall i | 0 <= i < |prefix| :: prefix[i] == xs[i];
    }
  }

  /** Every cause of every failing element is a cause of the whole. */
  lemma {:induction false} FromIterCauses<A, B>(xs: seq<A>, check: A -> Valid<B>, i: nat, c: Cause)
    requires i < |xs| && check(xs[i]).Err? && c in check(xs[i]).error
    ensures FromIter(xs, check).Err? && c in FromIter(xs, check).error
    decreases |xs|
  {
    if i < |xs| - 1 {
      var prefix := xs[..|xs| - 1];
      assert prefix[i] == xs[i];
      FromIterCauses(prefix, check, i, c);
    }
  }

  // ----- the parts of the server -----

  datatype IpAddr = V4(a: nat, b: nat, c: nat, d: nat) | V6(segments: seq<nat>)

  const Loopback: IpAddr := V4(127, 0, 0, 1)

  /** The library parsers the validation relies on. */
  datatype Parsers = Parsers(
    parseIp: string -> Option<IpAddr>,
    headerName: string -> Option<string>,
    headerValue: string -> bool,
    convertCors: string -> Result<string, string>)

  datatype HttpVersion = HTTP1 | HTTP2

  /** The certificates and private keys are opaque payloads. */
  type Certificate = string
  type PrivateKey = string

  datatype Http = Http1 | Http2(cert: seq<Certificate>, key: PrivateKey)

  datatype Duration = Duration(millis: nat)

  datatype Script = Script(source: string, timeout: Option<Duration>)

  /** The script options of `@server`: a timeout in milliseconds. */
  datatype ScriptOptions = ScriptOptions(timeout: Option<nat>)

  /**
   * The settings of `@server` the validation reads: the experimental headers
   * in the ascending order of their set, the CORS settings as an opaque payload.
   */
  datatype ServerConfig = ServerConfig(
    hostname: string,
    version: HttpVersion,
    responseHeaders: seq<(string, string)>,
    experimentalHeaders: seq<string>,
    script: Option<ScriptOptions>,
    cors: Option<string>)

  /** The linked files the server needs: certificates, keys and the script source. */
  datatype Extensions = Extensions(cert: seq<Certificate>, keys: seq<PrivateKey>, script: Option<string>)

  /** The validated server. */
  datatype Server = Server(
    hostname: IpAddr,
    http: Http,
    responseHeaders: seq<(string, string)>,
    script: Option<Script>,
    experimentalHeaders: set<string>,
    cors: Option<string>)

  /** The HTTP version branch of `try_from`. */
  function HttpSetting(version: HttpVersion, ext: Extensions): (r: Valid<Http>)
    ensures version == HTTP1 ==> r == Ok(Http1)
    ensures version == HTTP2 && ext.cert == [] ==> r == Fail(CertificateIsRequiredForHTTP2)
    ensures version == HTTP2 && ext.cert != [] && ext.keys == [] ==> r == Fail(KeyIsRequiredForHTTP2)
    ensures r.Ok? && version == HTTP2 ==> ext.cert != [] && ext.keys != [] && r.value == Http2(ext.cert, ext.keys[0])
  {
    match version
    case HTTP2 =>
      if ext.cert == [] then Fail(CertificateIsRequiredForHTTP2)
      else if ext.keys == [] then Fail(KeyIsRequiredForHTTP2)
      else Ok(Http2(ext.cert, ext.keys[0]))
    case HTTP1 => Ok(Http1)
  }

  const HostnamePath: seq<string> := ["schema", "@server", "hostname"]

  /** `validate_hostname`: `localhost` is the loopback address without parsing; anything else is parsed. */
  function ValidateHostname(parsers: Parsers, hostname: string): (r: Valid<IpAddr>)
    ensures hostname == "localhost" ==> r == Ok(Loopback)
    ensures hostname != "localhost" ==> (r.Ok? <==> parsers.parseIp(hostname).Some?)
    ensures hostname != "localhost" && r.Ok? ==> r.value == parsers.parseIp(hostname).value
    ensures r.Err? ==> r.error == [Cause(ParsingFailed(hostname), HostnamePath)]
  {
    if hostname == "localhost" then Ok(Loopback)
    else
      match parsers.parseIp(hostname)
      case Some(ip) => Ok(ip)
      case None =>
        assert HostnamePath + [] == HostnamePath;
        Within(Fail(ParsingFailed(hostname)), HostnamePath)
  }

  /** One response header: its name and value are both checked. */
  function ResponseHeader(parsers: Parsers, header: (string, string)): Valid<(string, string)>
  {
    var name := if parsers.headerName(header.0).Some? then Ok(parsers.headerName(header.0).value)
                else Fail(InvalidHeaderName(header.0));
    var value := if parsers.headerValue(header.1) then Ok(header.1) else Fail(InvalidHeaderValue(header.1));
    Fuse(name, value)
  }

  const ResponseHeadersPath: seq<string> := ["schema", "@server", "headers", "custom"]

  /** `handle_response_headers`: every name and every value must parse. */
  function HandleResponseHeaders(parsers: Parsers, headers: seq<(string, string)>): (r: Valid<seq<(string, string)>>)
    ensures r.Ok? <==> forall i | 0 <= i < |headers| ::
                         parsers.headerName(headers[i].0).Some? && parsers.headerValue(headers[i].1)
    ensures r.Ok? ==> |r.value| == |headers|
                      && forall i | 0 <= i < |headers| ::
                           r.value[i] == (parsers.headerName(headers[i].0).value, headers[i].1)
  {
    var check := (h: (string, string)) => ResponseHeader(parsers, h);
    FromIterOk(headers, check);
    Within(FromIter(headers, check), ResponseHeadersPath)
  }

  /** One experimental header: it must start with `x-` in any case, then parse as a header name. */
  function ExperimentalHeader(parsers: Parsers, h: string): Valid<string>
  {
    if !StartsWith(ToLower(h), "x-") then Fail(ExperimentalHeaderInvalidFormat(h))
    else if parsers.headerName(h).None? then Fail(InvalidHeaderName(h))
    else Ok(parsers.headerName(h).value)
  }

  const ExperimentalPath: seq<string> := ["schema", "@server", "headers", "experimental"]

  /** The header names of the checked headers. */
  function NameSet(names: seq<string>): set<string>
  {
    set i | 0 <= i < |names| :: names[i]
  }

  /** The check `handle_experimental_headers` runs on each header. */
  function ExperimentalCheck(parsers: Parsers): string -> Valid<string>
  {
    (h: string) => ExperimentalHeader(parsers, h)
  }

  /**
   * `handle_experimental_headers`: the headers pass exactly when each
   * starts with `x-` in any case and parses; then the set holds their
   * parsed names.
   */
  function HandleExperimentalHeaders(parsers: Parsers, headers: seq<string>): (r: Valid<set<string>>)
    ensures r.Ok? <==> forall i | 0 <= i < |headers| ::
                         StartsWith(ToLower(headers[i]), "x-") && parsers.headerName(headers[i]).Some?
    ensures r.Ok? ==> r.value == set i | 0 <= i < |headers| :: parsers.headerName(headers[i]).value
  {
    var checked := FromIter(headers, ExperimentalCheck(parsers));
    CheckedHeaderNames(parsers, headers);
    Within(if checked.Ok? then Ok(NameSet(checked.value)) else Err(checked.error), ExperimentalPath)
  }

  /** The checked headers pass exactly when each one does, and then their names are the parsed names. */
  lemma CheckedHeaderNames(parsers: Parsers, headers: seq<string>)
    ensures var checked := FromIter(headers, ExperimentalCheck(parsers));
            (checked.Ok? <==> forall i | 0 <= i < |headers| ::
                               StartsWith(ToLower(headers[i]), "x-") && parsers.headerName(headers[i]).Some?)
            && (checked.Ok? ==> NameSet(checked.value)
                                == set i | 0 <= i < |headers| :: parsers.headerName(headers[i]).value)
  {
    var check := ExperimentalCheck(parsers);
    FromIterOk(headers, check);
    var checked := FromIter(headers, check);
    assert forall i | 0 <= i < |headers| :: check(headers[i]).Ok?
             <==> StartsWith(ToLower(headers[i]), "x-") && parsers.headerName(headers[i]).Some?;
    if checked.Ok? {
      ParsedNameSet(parsers, headers, checked.value);
    }
  }

  /** Names that are, one by one, the parsed header names form the set of parsed names. */
  lemma ParsedNameSet(parsers: Parsers, headers: seq<string>, names: seq<string>)
    requires |names| == |headers|
    requires forall i | 0 <= i < |headers| :: parsers.headerName(headers[i]).Some?
    requires forall i | 0 <= i < |headers| :: names[i] == parsers.headerName(headers[i]).value
    ensures NameSet(names) == set i | 0 <= i < |headers| :: parsers.headerName(headers[i]).value
  {
    forall n | n in NameSet(names)
      ensures exists i | 0 <= i < |headers| :: n == parsers.headerName(headers[i]).value
    {
      var i :| 0 <= i < |names| && names[i] == n;
      assert n == parsers.headerName(headers[i]).value;
    }
  }

  /** A header without the `x-` prefix is reported with its own text, under the experimental headers. */
  lemma ExperimentalHeaderNeedsPrefix(parsers: Parsers, headers: seq<string>, i: nat)
    requires i < |headers| && !StartsWith(ToLower(headers[i]), "x-")
    ensures var r := HandleExperimentalHeaders(parsers, headers);
            r.Err? && Cause(ExperimentalHeaderInvalidFormat(headers[i]), ExperimentalPath) in r.error
  {
    var check := ExperimentalCheck(parsers);
    var c := Cause(ExperimentalHeaderInvalidFormat(headers[i]), []);
    assert check(headers[i]) == Err([c]);
    FromIterCauses(headers, check, i, c);
    var causes := FromIter(headers, check).error;
    var k :| 0 <= k < |causes| && causes[k] == c;
    var r := HandleExperimentalHeaders(parsers, headers);
    assert r.error[k] == c.(trace := ExperimentalPath + []);
    assert ExperimentalPath + [] == ExperimentalPath;
  }

  /** `to_script`: the linked script with the configured timeout, in milliseconds. */
  function ToScript(ext: Extensions, options: Option<ScriptOptions>): (r: Valid<Option<Script>>)
    ensures r.Ok?
    ensures r.value.Some? <==> ext.script.Some?
    ensures r.value.Some? ==> r.value.value.source == ext.script.value
    ensures r.value.Some? ==>
              (r.value.value.timeout.Some? <==> options.Some? && options.value.timeout.Some?)
    ensures r.value.Some? && r.value.value.timeout.Some? ==>
              r.value.value.timeout.value.millis == options.value.timeout.value
  {
    match ext.script
    case None => Ok(None)
    case Some(source) =>
      var timeout := if options.Some? then options.value.timeout else None;
      Ok(Some(Script(source, if timeout.Some? then Some(Duration(timeout.value)) else None)))
  }

  const CorsPath: seq<string> := ["schema", "@server", "headers", "cors"]

  /** `validate_cors`: the CORS settings, when present, must convert. */
  function ValidateCors(parsers: Parsers, cors: Option<string>): (r: Valid<Option<string>>)
    ensures cors.None? ==> r == Ok(None)
    ensures cors.Some? ==> (r.Ok? <==> parsers.convertCors(cors.value).Ok?)
    ensures cors.Some? && r.Ok? ==> r.value == Some(parsers.convertCors(cors.value).value)
  {
    match cors
    case None => Ok(None)
    case Some(c) =>
      match parsers.convertCors(c)
      case Ok(converted) => Ok(Some(converted))
      case Err(message) => Within(Fail(InvalidCors(message)), CorsPath)
  }

  /** The six checks of `try_from`, fused in order. */
  function FuseAll(parsers: Parsers, config: ServerConfig, ext: Extensions, http: Valid<Http>)
    : Valid<(((((IpAddr, Http), seq<(string, string)>), Option<Script>), set<string>), Option<string>)>
  {
    Fuse(Fuse(Fuse(Fuse(Fuse(ValidateHostname(parsers, ToLower(config.hostname)), http),
                        HandleResponseHeaders(parsers, config.responseHeaders)),
                   ToScript(ext, config.script)),
              HandleExperimentalHeaders(parsers, config.experimentalHeaders)),
         ValidateCors(parsers, config.cors))
  }

  /**
   * `Server::try_from`. The HTTP check runs first and its failure is
   * returned alone; the other checks are fused (see `AllChecksMustSucceed`).
   */
  function TryFrom(parsers: Parsers, config: ServerConfig, ext: Extensions): (r: Valid<Server>)
    ensures HttpSetting(config.version, ext).Err? ==> r == Err(HttpSetting(config.version, ext).error)
    ensures r.Ok? ==> r.value.http == HttpSetting(config.version, ext).value
  {
    var http := HttpSetting(config.version, ext);
    if http.Err? then Err(http.error)
    else
      match FuseAll(parsers, config, ext, http)
      case Err(causes) => Err(causes)
      case Ok((((((hostname, h), headers), script), experimental), cors)) =>
        Ok(Server(hostname, h, headers, script, experimental, cors))
  }

  /**
   * HTTP/2 without certificates, or with certificates but no key, fails
   * with that error alone, whatever else is wrong with the settings.
   */
  lemma Http2NeedsCertificateThenKey(parsers: Parsers, config: ServerConfig, ext: Extensions)
    requires config.version == HTTP2
    ensures ext.cert == [] ==> TryFrom(parsers, config, ext) == Err([Cause(CertificateIsRequiredForHTTP2, [])])
    ensures ext.cert != [] && ext.keys == [] ==> TryFrom(parsers, config, ext) == Err([Cause(KeyIsRequiredForHTTP2, [])])
    ensures TryFrom(parsers, config, ext).Ok? ==> TryFrom(parsers, config, ext).value.http == Http2(ext.cert, ext.keys[0])
  {
  }

  /**
   * A server is built exactly when every check succeeds, and it carries the
   * values of the checks; otherwise the causes of all failing checks are
   * reported, in the order of the checks.
   */
  lemma AllChecksMustSucceed(parsers: Parsers, config: ServerConfig, ext: Extensions)
    ensures var hostname := ValidateHostname(parsers, ToLower(config.hostname));
            var http := HttpSetting(config.version, ext);
            var headers := HandleResponseHeaders(parsers, config.responseHeaders);
            var script := ToScript(ext, config.script);
            var experimental := HandleExperimentalHeaders(parsers, config.experimentalHeaders);
            var cors := ValidateCors(parsers, config.cors);
            var r := TryFrom(parsers, config, ext);
            (r.Ok? <==> hostname.Ok? && http.Ok? && headers.Ok? && experimental.Ok? && cors.Ok?)
            && (r.Ok? ==> r.value == Server(hostname.value, http.value, headers.value, script.value,
                                            experimental.value, cors.value))
            && (http.Ok? && r.Err? ==>
                  r.error == Causes(hostname) + Causes(headers) + Causes(experimental) + Causes(cors))
  {
    var http := HttpSetting(config.version, ext);
    var hostname := ValidateHostname(parsers, ToLower(config.hostname));
    var headers := HandleResponseHeaders(parsers, config.responseHeaders);
    var experimental := HandleExperimentalHeaders(parsers, config.experimentalHeaders);
    var cors := ValidateCors(parsers, config.cors);
    if http.Ok? {
      var none: seq<Cause> := [];
      assert Causes(hostname) + none == Causes(hostname);
      assert Causes(hostname) + Causes(headers) + none == Causes(hostname) + Causes(headers);
    }
  }

  /** The host name is lower-cased first, so `localhost` in any case is the loopback address. */
  lemma LocalhostInAnyCase(parsers: Parsers, config: ServerConfig, ext: Extensions)
    requires ToLower(config.hostname) == "localhost"
    ensures TryFrom(parsers, config, ext).Ok? ==> TryFrom(parsers, config, ext).value.hostname == Loopback
  {
    AllChecksMustSucceed(parsers, config, ext);
  }

  /** The `@server` settings of the default configuration. */
  const DefaultServerConfig: ServerConfig := ServerConfig("127.0.0.1", HTTP1, [], [], None, None)

  const NoExtensions: Extensions := Extensions([], [], None)

  /** The address `127.0.0.1` has no letters to lower-case. */
  lemma LoopbackTextLower()
    ensures ToLower(DefaultServerConfig.hostname) == "127.0.0.1"
  {
    var text := DefaultServerConfig.hostname;
    assert forall i :: 0 <= i < |text| ==> text[i] in "0123456789.";
    ToLowerNoUpper(text);
  }

  /** Each check passes on the default settings. */
  lemma DefaultChecks(parsers: Parsers)
    requires parsers.parseIp("127.0.0.1") == Some(Loopback)
    ensures ValidateHostname(parsers, ToLower(DefaultServerConfig.hostname)) == Ok(Loopback)
    ensures HandleResponseHeaders(parsers, []) == Ok([])
    ensures HandleExperimentalHeaders(parsers, []) == Ok({})
  {
    LoopbackTextLower();
    var check := ExperimentalCheck(parsers);
    assert FromIter([], check) == Ok([]);
    assert NameSet([]) == {};
  }

  /**
   * The default configuration validates, given an address parser that reads
   * the dotted loopback address.
   */
  lemma DefaultSucceeds(parsers: Parsers)
    requires parsers.parseIp("127.0.0.1") == Some(Loopback)
    ensures TryFrom(parsers, DefaultServerConfig, NoExtensions)
            == Ok(Server(Loopback, Http1, [], None, {}, None))
  {
    DefaultChecks(parsers);
    AllChecksMustSucceed(parsers, DefaultServerConfig, NoExtensions);
  }
}
