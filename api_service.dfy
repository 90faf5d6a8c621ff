/**
 * The request service: which headers go out, whether a request goes
 * straight to its URL or through the backend proxy, what the proxy is sent
 * and what its reply becomes, and the ordered classifier that turns a thrown
 * value into the message shown to the user. `fetch` itself is not modelled:
 * its outcome is an input.
 */
module ApiService {
  import opened Wrappers
  import opened Strings
  import opened Types
  import opened Utils

  /** `API_HEADERS`, the defaults every request starts from. */
  const DefaultHeaders: map<string, string> :=
    map["Content-Type" := "application/json", "Accept" := "application/json"]

  /** The headers the browser controls and the direct path deletes, by exact key. */
  const BrowserControlled: set<string> := {"user-agent", "origin", "referer"}

  /** The methods that carry a body. */
  const BodyMethods: set<string> := {"POST", "PUT", "PATCH"}

  /** `${API_BASE_URL}/requests/execute`, the proxy endpoint, with `API_BASE_URL` being `/api/v1`. */
  const BackendUrl := "/api/v1" + "/requests/execute"

  // ---------------------------------------------------------------------------
  // Header filtering

  /**
   * `filterEnabledHeaders(headers)`: trimmed key to trimmed value for every
   * row that is not disabled and has a non-blank key and value; a later
   * duplicate key overwrites an earlier one.
   */
  function FilterEnabledHeaders(headers: seq<Header>): (r: map<string, string>)
    ensures forall k :: k in r <==> exists i :: 0 <= i < |headers| && Supplies(headers[i], true, k)
    ensures forall i :: LastSupplier(headers, true, i) ==>
      Trim(headers[i].key) in r && r[Trim(headers[i].key)] == Trim(headers[i].value)
  {
    HeaderRecordSpec(headers, true);
    HeaderRecord(headers, true)
  }

  /** Both halves of the header-record characterisation, for every key and row at once. */
  lemma HeaderRecordSpec(hs: seq<Header>, onlyEnabled: bool)
    ensures forall k :: k in HeaderRecord(hs, onlyEnabled) <==>
      exists i :: 0 <= i < |hs| && Supplies(hs[i], onlyEnabled, k)
    ensures forall i :: LastSupplier(hs, onlyEnabled, i) ==>
      Trim(hs[i].key) in HeaderRecord(hs, onlyEnabled)
      && HeaderRecord(hs, onlyEnabled)[Trim(hs[i].key)] == Trim(hs[i].value)
  {
    forall k
      ensures k in HeaderRecord(hs, onlyEnabled) <==>
        exists i :: 0 <= i < |hs| && Supplies(hs[i], onlyEnabled, k)
    {
      HeaderRecordKeys(hs, onlyEnabled, k);
    }
    forall i | LastSupplier(hs, onlyEnabled, i)
      ensures Trim(hs[i].key) in HeaderRecord(hs, onlyEnabled)
      ensures HeaderRecord(hs, onlyEnabled)[Trim(hs[i].key)] == Trim(hs[i].value)
    {
      HeaderRecordLastWins(hs, onlyEnabled, i);
    }
  }

  /** A row whose flag is `undefined` is kept exactly like one flagged `true`. */
  lemma UndefinedCountsAsEnabled(h: Header)
    requires h.enabled.None? && Usable(h)
    ensures FilterEnabledHeaders([h]) == map[Trim(h.key) := Trim(h.value)]
    ensures FilterEnabledHeaders([h.(enabled := Some(true))]) == FilterEnabledHeaders([h])
  {
    assert [h][..0] == [];
    assert [h.(enabled := Some(true))][..0] == [];
  }

  /** A disabled row never reaches the request, whatever it holds: removing it changes nothing. */
  lemma {:induction false} DisabledRowDropped(pre: seq<Header>, h: Header, post: seq<Header>)
    requires h.enabled == Some(false)
    ensures FilterEnabledHeaders(pre + [h] + post) == FilterEnabledHeaders(pre + post)
    decreases |post|
  {
    if post == [] {
      assert pre + [h] + post == pre + [h];
      assert (pre + [h])[..|pre|] == pre;
      assert pre + post == pre;
      HeaderRecordStep(pre + [h], true);
    } else {
      var n := |post| - 1;
      var with := pre + [h] + post;
      var without := pre + post;
      assert with[..|with| - 1] == pre + [h] + post[..n];
      assert without[..|without| - 1] == pre + post[..n];
      assert with[|with| - 1] == post[n] == without[|without| - 1];
      HeaderRecordStep(with, true);
      HeaderRecordStep(without, true);
      DisabledRowDropped(pre, h, post[..n]);
    }
  }

  /** Headers of a request: the filtered rows, or none when the list is absent. */
  function UserHeaders(headers: Option<seq<Header>>): map<string, string> {
    match headers
    case None => map[]
    case Some(hs) => FilterEnabledHeaders(hs)
  }

  // ---------------------------------------------------------------------------
  // Error classification

  /** A thrown value: its `name`, its `message` and an optional numeric `status`. */
  datatype ErrorValue = ErrorValue(name: string, message: string, status: Option<int>)

  const UnknownError := "An unknown error occurred"
  const CorsFetchError := "CORS Error: " + "The server does not allow " + "cross-origin requests " + "from this domain."
  const NetworkError := "Network Error: " + "Unable to connect " + "to the server."
  const CorsBlocked := "CORS Error: " + "Cross-origin " + "request blocked."
  const RequestFailed := "Request Failed: " + "The server rejected " + "the request."
  const NoProtocol := "Invalid URL format: " + "no protocol"
  const InternalServerError := "Internal Server Error"
  const BackendPrefix := "Backend error: "
  const NotFound := "Resource Not Found: " + "The URL you requested " + "could not be found."
  const ServerError := "Server Error: " + "The API server encountered " + "an error processing " + "your request."
  const Unexpected := "An unexpected error occurred"

  /** `getErrorMessage(error)`; `None` is a `null` or `undefined` thrown value. */
  function GetErrorMessage(error: Option<ErrorValue>): (r: string)
    ensures error.None? ==> r == UnknownError
  {
    if error.None? then UnknownError
    else
      var e := error.value;
      var m := e.message;
      if e.name == "TypeError" && Contains(m, "fetch") then
        if Contains(m, "CORS") then CorsFetchError else NetworkError
      else if Contains(m, "CORS") then CorsBlocked
      else if Contains(m, "ERR_FAILED") then RequestFailed
      else if Contains(m, NoProtocol) then
        NoProtocol + ": " + MatchRestOfLine(m, "no protocol: ").GetOr("")
      else if Contains(m, InternalServerError) && MatchRestOfLine(m, BackendPrefix).Some? then
        Trim(MatchRestOfLine(m, BackendPrefix).value)
      else if Contains(m, "404") || e.status == Some(404) then NotFound
      else if Contains(m, "500") || e.status == Some(500) then ServerError
      else Fallback(e)
  }

  /** `error.message || 'An unexpected error occurred'`. */
  function Fallback(e: ErrorValue): string {
    if e.message != "" then e.message else Unexpected
  }

  /** The classifier's rules, listed separately from its code. */
  datatype Rule =
    | FetchFailure
    | MentionsCors
    | MentionsErrFailed
    | MissingProtocol
    | BackendInternal
    | MentionsNotFound
    | MentionsServerError

  /** The rules in the order they are tried. */
  const Rules: seq<Rule> :=
    [FetchFailure, MentionsCors, MentionsErrFailed, MissingProtocol, BackendInternal, MentionsNotFound, MentionsServerError]

  /** When a rule fires. */
  predicate Applies(rule: Rule, e: ErrorValue) {
    match rule
    case FetchFailure => e.name == "TypeError" && Contains(e.message, "fetch")
    case MentionsCors => Contains(e.message, "CORS")
    case MentionsErrFailed => Contains(e.message, "ERR_FAILED")
    case MissingProtocol => Contains(e.message, NoProtocol)
    case BackendInternal => Contains(e.message, InternalServerError) && MatchRestOfLine(e.message, BackendPrefix).Some?
    case MentionsNotFound => Contains(e.message, "404") || e.status == Some(404)
    case MentionsServerError => Contains(e.message, "500") || e.status == Some(500)
  }

  /** What a rule answers once it fires. */
  function Answer(rule: Rule, e: ErrorValue): string {
    match rule
    case FetchFailure => if Contains(e.message, "CORS") then CorsFetchError else NetworkError
    case MentionsCors => CorsBlocked
    case MentionsErrFailed => RequestFailed
    case MissingProtocol => NoProtocol + ": " + MatchRestOfLine(e.message, "no protocol: ").GetOr("")
    case BackendInternal => Trim(MatchRestOfLine(e.message, BackendPrefix).GetOr(""))
    case MentionsNotFound => NotFound
    case MentionsServerError => ServerError
  }

  /** The answer of the first rule that fires, or the fallback when none does. */
  function FirstMatch(rules: seq<Rule>, e: ErrorValue): string
    decreases |rules|
  {
    if rules == [] then Fallback(e)
    else if Applies(rules[0], e) then Answer(rules[0], e)
    else FirstMatch(rules[1..], e)
  }

  /** The classifier is the ordered rule list: the first rule that fires decides. */
  lemma ClassifierIsFirstMatch(e: ErrorValue)
    ensures GetErrorMessage(Some(e)) == FirstMatch(Rules, e)
  {
    var r7: seq<Rule> := [];
    var r6 := [MentionsServerError] + r7;
    var r5 := [MentionsNotFound] + r6;
    var r4 := [BackendInternal] + r5;
    var r3 := [MissingProtocol] + r4;
    var r2 := [MentionsErrFailed] + r3;
    var r1 := [MentionsCors] + r2;
    assert Rules == [FetchFailure] + r1;
    FirstMatchCons(MentionsServerError, r7, e);
    FirstMatchCons(MentionsNotFound, r6, e);
    FirstMatchCons(BackendInternal, r5, e);
    FirstMatchCons(MissingProtocol, r4, e);
    FirstMatchCons(MentionsErrFailed, r3, e);
    FirstMatchCons(MentionsCors, r2, e);
    FirstMatchCons(FetchFailure, r1, e);
  }

  /** One step of the rule list. */
  lemma FirstMatchCons(rule: Rule, rest: seq<Rule>, e: ErrorValue)
    ensures FirstMatch([rule] + rest, e) == if Applies(rule, e) then Answer(rule, e) else FirstMatch(rest, e)
  {
    assert ([rule] + rest)[1..] == rest;
  }

  /** In any rule list, a rule that fires with no earlier rule firing decides the answer. */
  lemma {:induction false} FirstMatchPrecedence(rules: seq<Rule>, e: ErrorValue, i: nat)
    requires i < |rules| && Applies(rules[i], e)
    requires forall j :: 0 <= j < i ==> !Applies(rules[j], e)
    ensures FirstMatch(rules, e) == Answer(rules[i], e)
    decreases i
  {
    if i > 0 {
      assert !Applies(rules[0], e);
      FirstMatchPrecedence(rules[1..], e, i - 1);
    }
  }

  /** When no rule fires the raw message comes back, or the generic text for an empty one. */
  lemma {:induction false} FirstMatchNone(rules: seq<Rule>, e: ErrorValue)
    requires forall j :: 0 <= j < |rules| ==> !Applies(rules[j], e)
    ensures FirstMatch(rules, e) == Fallback(e)
    decreases |rules|
  {
    if rules != [] {
      assert !Applies(rules[0], e);
      FirstMatchNone(rules[1..], e);
    }
  }

  /** A message naming both CORS and 404 is classified by the earlier CORS rule. */
  lemma CorsBeatsNotFound(e: ErrorValue)
    requires !(e.name == "TypeError" && Contains(e.message, "fetch"))
    requires Contains(e.message, "CORS") && Contains(e.message, "404")
    ensures GetErrorMessage(Some(e)) == CorsBlocked
  {
    ClassifierIsFirstMatch(e);
    FirstMatchPrecedence(Rules, e, 1);
  }

  /** A failed `fetch` mentioning CORS gets the long CORS text and anything else mentioning it the short one. */
  lemma CorsTexts(e: ErrorValue)
    requires Contains(e.message, "CORS")
    ensures e.name == "TypeError" && Contains(e.message, "fetch") ==> GetErrorMessage(Some(e)) == CorsFetchError
    ensures !(e.name == "TypeError" && Contains(e.message, "fetch")) ==> GetErrorMessage(Some(e)) == CorsBlocked
  {
  }

  /** The missing-protocol rule quotes what follows `no protocol: ` on its line, or nothing. */
  lemma MissingProtocolQuotes(e: ErrorValue, url: string)
    requires forall j :: 0 <= j < 3 ==> !Applies(Rules[j], e)
    requires Contains(e.message, NoProtocol)
    requires MatchRestOfLine(e.message, "no protocol: ") == Some(url)
    ensures GetErrorMessage(Some(e)) == NoProtocol + ": " + url
    ensures url != ""
  {
    ClassifierIsFirstMatch(e);
    FirstMatchPrecedence(Rules, e, 3);
  }

  /**
   * A message without any of the rule phrases passes through unchanged; it may
   * mention `Internal Server Error` when it has no `Backend error: ` to extract from.
   */
  lemma RawMessageKept(e: ErrorValue)
    requires e.message != "" && e.status.None?
    requires e.name != "TypeError" || !Contains(e.message, "fetch")
    requires !Contains(e.message, "CORS") && !Contains(e.message, "ERR_FAILED")
    requires !Contains(e.message, NoProtocol)
    requires !Contains(e.message, InternalServerError) || !Contains(e.message, BackendPrefix)
    requires !Contains(e.message, "404") && !Contains(e.message, "500")
    ensures GetErrorMessage(Some(e)) == e.message
  {
    if Contains(e.message, InternalServerError) {
      MatchNeedsPattern(e.message, BackendPrefix);
    }
  }

  /** `new Error(message)`. */
  function Thrown(message: string): Option<ErrorValue> {
    Some(ErrorValue("Error", message, None))
  }

  /**
   * A message lacking one letter of each rule phrase (`C` of `CORS`, `_` of
   * `ERR_FAILED`, the given letters of the missing-protocol and
   * internal-error phrases, `4` of `404`, `5` of `500`) comes back unchanged.
   */
  lemma KeptWithout(t: string, p: char, q: char)
    requires t != ""
    requires p in NoProtocol && q in InternalServerError
    requires 'C' !in t && '_' !in t && p !in t && q !in t && '4' !in t && '5' !in t
    ensures GetErrorMessage(Thrown(t)) == t
  {
    MissingChar(t, "CORS", 'C');
    MissingChar(t, "ERR_FAILED", '_');
    MissingChar(t, NoProtocol, p);
    MissingChar(t, InternalServerError, q);
    MissingChar(t, "404", '4');
    MissingChar(t, "500", '5');
  }

  /** The network-failure text is a fixed point of the classifier. */
  lemma NetworkErrorStable()
    ensures GetErrorMessage(Thrown(NetworkError)) == NetworkError
  {
    NetworkErrorLetters();
    KeptWithout(NetworkError, 'I', 'I');
  }

  lemma NetworkErrorLetters()
    ensures 'C' !in NetworkError && '_' !in NetworkError && 'I' !in NetworkError
    ensures '4' !in NetworkError && '5' !in NetworkError
  {
    var t := "Network Error: " + "Unable to connect " + "to the server.";
    assert NetworkError == t;
    forall k | 0 <= k < |t|
      ensures t[k] != 'C' && t[k] != '_' && t[k] != 'I' && t[k] != '4' && t[k] != '5'
    {
      assert 'a' <= t[k] <= 'z' || t[k] == 'N' || t[k] == 'E' || t[k] == 'U' || t[k] == ' ' || t[k] == ':' || t[k] == '.';
    }
  }

  /** The short CORS text classifies as itself. */
  lemma CorsBlockedStable()
    ensures GetErrorMessage(Thrown(CorsBlocked)) == CorsBlocked
  {
    MentionsCorsAtStart(CorsBlocked);
  }

  /** Applying the classifier to its own CORS answer shortens the long text to the short one. */
  lemma CorsFetchTextShortens()
    ensures GetErrorMessage(Thrown(CorsFetchError)) == CorsBlocked
  {
    MentionsCorsAtStart(CorsFetchError);
  }

  /** A text opening with `CORS` mentions CORS. */
  lemma MentionsCorsAtStart(s: string)
    requires |s| >= 4 && s[..4] == "CORS"
    ensures Contains(s, "CORS")
  {
    assert s[0..] == s;
    ContainsAt(s, "CORS", 0);
  }

  // ---------------------------------------------------------------------------
  // Routing and request assembly

  /**
   * `isInternalUrl(url)`: a URL that parses is internal when its origin is the
   * page's or it opens with `/api`; one that does not parse is internal when
   * it opens with `/` or `api`.
   */
  function IsInternalUrl(url: string, appOrigin: string, parse: UrlParser): (r: bool)
    ensures StartsWith(url, "/api") ==> r
    ensures parse(url).Some? && parse(url).value.origin == appOrigin ==> r
    ensures parse(url).None? ==> (r <==> StartsWith(url, "/") || StartsWith(url, "api"))
    ensures parse(url).Some? && parse(url).value.origin != appOrigin ==> (r <==> StartsWith(url, "/api"))
  {
    match parse(url)
    case Some(u) => u.origin == appOrigin || StartsWith(url, "/api")
    case None => StartsWith(url, "/") || StartsWith(url, "api")
  }

  /** A URL opening with `/api` is never proxied, whatever the parser says. */
  lemma ApiPathIsInternal(rest: string, appOrigin: string, parse: UrlParser)
    ensures IsInternalUrl("/api" + rest, appOrigin, parse)
  {
    StartsWithPrefix("/api", rest);
  }

  /** The proxy endpoint is itself internal, so a request routed to it is never proxied again. */
  lemma BackendUrlIsInternal(appOrigin: string, parse: UrlParser)
    ensures IsInternalUrl(BackendUrl, appOrigin, parse)
  {
    ApiPathIsInternal("/v1" + "/requests/execute", appOrigin, parse);
    assert BackendUrl == "/api" + ("/v1" + "/requests/execute");
  }

  /** What the direct path hands to `fetch`: method, headers and the optional body. */
  datatype RequestInit = RequestInit(httpMethod: string, headers: map<string, string>, body: Option<string>)

  /** The JSON object posted to the backend proxy. */
  datatype Envelope = Envelope(
    httpMethod: string,
    url: string,
    headers: map<string, string>,
    body: Option<string>,
    sessionId: string)

  /** Where a request goes. */
  datatype Route = Direct(url: string, init: RequestInit) | Proxied(target: string, envelope: Envelope)

  /** The direct-path headers: the defaults overlaid by the user's, minus the browser-controlled keys. */
  function DirectHeaders(user: map<string, string>): (r: map<string, string>)
    ensures forall k :: k in r <==> k in DefaultHeaders || (k in user && k !in BrowserControlled)
    ensures forall k :: k in user && k !in BrowserControlled ==> r[k] == user[k]
    ensures forall k :: k in DefaultHeaders && (k !in user || k in BrowserControlled) ==> r[k] == DefaultHeaders[k]
  {
    DefaultHeaders + (user - BrowserControlled)
  }

  /** The deletion matches keys exactly: a differently cased browser header is sent. */
  lemma StripIsCaseSensitive(user: map<string, string>)
    requires "User-Agent" in user
    ensures "User-Agent" in DirectHeaders(user) && DirectHeaders(user)["User-Agent"] == user["User-Agent"]
  {
    assert "User-Agent" !in BrowserControlled;
  }

  /** The user may replace a default: a user `Accept` header wins. */
  lemma UserOverridesDefault(user: map<string, string>)
    requires "Accept" in user
    ensures DirectHeaders(user)["Accept"] == user["Accept"]
    ensures "Content-Type" in DirectHeaders(user)
  {
    assert "Accept" !in BrowserControlled;
  }

  /** The body `fetch` receives: present iff the body is non-empty and the method carries one. */
  function BodyToSend(config: RequestConfig): (r: Option<string>)
    ensures r.Some? <==> Given(config.body) && config.httpMethod in BodyMethods
    ensures r.Some? ==> r == config.body
  {
    if Given(config.body) && config.httpMethod in BodyMethods then config.body else None
  }

  /** `config.sessionId || crypto.randomUUID()`. */
  function SessionIdOr(config: RequestConfig, freshId: Uuid): (r: string)
    ensures r != ""
    ensures Given(config.sessionId) ==> r == config.sessionId.value
    ensures !Given(config.sessionId) ==> r == freshId
  {
    if Given(config.sessionId) then config.sessionId.value else freshId
  }

  /** The envelope `executeRequest` posts: filtered, unstripped headers and a session id. */
  function ExecuteEnvelope(config: RequestConfig, freshId: Uuid): (r: Envelope)
    ensures r.httpMethod == config.httpMethod && r.url == config.url && r.body == config.body
    ensures r.headers == UserHeaders(config.headers)
    ensures r.sessionId == SessionIdOr(config, freshId)
  {
    Envelope(config.httpMethod, config.url, UserHeaders(config.headers), config.body, SessionIdOr(config, freshId))
  }

  /**
   * The decision part of `makeRequest`: a proxied request gets a session id
   * written into the configuration when it has none; a direct one gets its
   * filtered headers stripped of the browser-controlled keys and laid over the
   * defaults, and a body only for POST, PUT and PATCH.
   */
  method RouteRequest(config: RequestConfig, appOrigin: string, parse: UrlParser, freshId: Uuid, executeId: Uuid)
    returns (updated: RequestConfig, route: Route)
    ensures route.Proxied? <==> !IsInternalUrl(config.url, appOrigin, parse)
    ensures route.Proxied? ==> updated.sessionId.Some? && updated.sessionId.value != ""
    ensures route.Proxied? && Given(config.sessionId) ==> updated == config
    ensures route.Proxied? && !Given(config.sessionId) ==> updated == config.(sessionId := Some(freshId))
    ensures route.Proxied? ==> route.target == BackendUrl && route.envelope == ExecuteEnvelope(updated, executeId)
    ensures route.Proxied? ==> route.envelope.sessionId == SessionIdOr(config, freshId)
    ensures route.Direct? ==> updated == config && route.url == config.url
    ensures route.Direct? ==> route.init == RequestInit(config.httpMethod, DirectHeaders(UserHeaders(config.headers)), BodyToSend(config))
  {
    updated := config;
    var useProxy := !IsInternalUrl(config.url, appOrigin, parse);
    if useProxy {
      if !Given(updated.sessionId) {
        updated := updated.(sessionId := Some(freshId));
      }
      route := Proxied(BackendUrl, ExecuteEnvelope(updated, executeId));
      return;
    }
    var requestHeaders := if config.headers.Some? then FilterEnabledHeaders(config.headers.value) else map[];
    var sanitized := requestHeaders;
    sanitized := sanitized - {"user-agent"};
    sanitized := sanitized - {"origin"};
    sanitized := sanitized - {"referer"};
    DeletesEachControlled(requestHeaders);
    var init := RequestInit(config.httpMethod, DefaultHeaders + sanitized, None);
    BodyMethodsListed(config.httpMethod);
    if Given(config.body) && config.httpMethod in ["POST", "PUT", "PATCH"] {
      init := init.(body := config.body);
    }
    route := Direct(config.url, init);
  }

  /** Deleting the three keys one by one removes exactly the browser-controlled set. */
  lemma DeletesEachControlled(m: map<string, string>)
    ensures m - {"user-agent"} - {"origin"} - {"referer"} == m - BrowserControlled
  {
  }

  /** The list the code tests and the set the contract names hold the same methods. */
  lemma BodyMethodsListed(m: string)
    ensures m in ["POST", "PUT", "PATCH"] <==> m in BodyMethods
  {
  }

  // ---------------------------------------------------------------------------
  // Outcomes of the network calls

  /** The two reads `parseResponse` may attempt; `None` is a read that throws. */
  datatype BodyRead = BodyRead(json: Option<JsonValue>, text: Option<string>)

  const Unparsable := "Unable to parse response"

  /** `parseResponse(response)`: JSON for a JSON content type, text otherwise, a fixed text if reading throws. */
  function ParseResponse(contentType: Option<string>, read: BodyRead): (r: JsonValue)
    ensures contentType.Some? && Contains(contentType.value, "application/json") && read.json.Some? ==> r == read.json.value
    ensures !(contentType.Some? && Contains(contentType.value, "application/json")) && read.text.Some? ==> r == JString(read.text.value)
    ensures (contentType.Some? && Contains(contentType.value, "application/json") && read.json.None?)
         || (!(contentType.Some? && Contains(contentType.value, "application/json")) && read.text.None?)
        ==> r == JString(Unparsable)
  {
    if contentType.Some? && Contains(contentType.value, "application/json") then
      if read.json.Some? then read.json.value else JString(Unparsable)
    else if read.text.Some? then JString(read.text.value) else JString(Unparsable)
  }

  /** What the direct `fetch` did; `elapsed` and `bytes` are the measured time and serialised size. */
  datatype DirectOutcome =
    | DirectThrew(error: Option<ErrorValue>)
    | DirectAnswered(status: int, statusText: string, headers: map<string, string>,
                     contentType: Option<string>, read: BodyRead, elapsed: int, bytes: nat)

  /** The JSON the proxy answers with; absent fields are `None`. */
  datatype ProxyReply = ProxyReply(
    status: int,
    statusText: Option<string>,
    headers: Option<map<string, string>>,
    body: Option<JsonValue>,
    data: Option<JsonValue>)

  /** What the proxy `fetch` did. */
  datatype ProxyOutcome =
    | ProxyThrew(error: Option<ErrorValue>)
    | ProxyNotOk(errorText: string, statusText: string)
    | ProxyReplied(reply: ProxyReply, elapsed: int, bytes: nat)

  /** `result.body || result.data`. */
  function ReplyData(reply: ProxyReply): (r: Option<JsonValue>)
    ensures Truthy(reply.body) ==> r == reply.body
    ensures !Truthy(reply.body) ==> r == reply.data
  {
    if Truthy(reply.body) then reply.body else reply.data
  }

  /** The response `executeRequest` builds from the proxy's reply. */
  function MapReply(reply: ProxyReply, elapsed: int, bytes: nat): (r: ApiResponse)
    ensures r.status == reply.status && r.data == ReplyData(reply)
    ensures r.statusText == reply.statusText.GetOr("")
    ensures reply.headers.None? ==> r.headers == map[]
    ensures reply.headers.Some? ==> r.headers == reply.headers.value
    ensures r.time == elapsed && r.size == FormatBytes(bytes)
  {
    ApiResponse(reply.status, reply.statusText.GetOr(""), reply.headers.GetOr(map[]), ReplyData(reply), elapsed, FormatBytes(bytes))
  }

  /** A reply missing its optional fields gets an empty status text and no headers. */
  lemma ReplyDefaults(status: int, data: Option<JsonValue>, elapsed: int, bytes: nat)
    ensures var r := MapReply(ProxyReply(status, None, None, None, data), elapsed, bytes);
      r.statusText == "" && r.headers == map[] && r.data == data
  {
  }

  /** The message of a non-OK proxy reply: its text, or its status text when the text is empty. */
  function BackendError(errorText: string, statusText: string): (r: string)
    ensures StartsWith(r, BackendPrefix)
    ensures errorText != "" ==> r == BackendPrefix + errorText
    ensures errorText == "" ==> r == BackendPrefix + statusText
  {
    StartsWithPrefix(BackendPrefix, if errorText != "" then errorText else statusText);
    BackendPrefix + (if errorText != "" then errorText else statusText)
  }

  /** `executeRequest(config)` once the envelope is posted: the response, or the classified message it throws. */
  function ExecuteResult(outcome: ProxyOutcome): (r: Result<ApiResponse, string>)
    ensures outcome.ProxyReplied? ==> r == Success(MapReply(outcome.reply, outcome.elapsed, outcome.bytes))
    ensures outcome.ProxyThrew? ==> r == Failure(GetErrorMessage(outcome.error))
    ensures outcome.ProxyNotOk? ==> r == Failure(GetErrorMessage(Thrown(BackendError(outcome.errorText, outcome.statusText))))
  {
    match outcome
    case ProxyThrew(e) => Failure(GetErrorMessage(e))
    case ProxyNotOk(text, st) => Failure(GetErrorMessage(Thrown(BackendError(text, st))))
    case ProxyReplied(reply, elapsed, bytes) => Success(MapReply(reply, elapsed, bytes))
  }

  /** The direct path's result: the formatted response, or the classified message. */
  function DirectResult(outcome: DirectOutcome): (r: Result<ApiResponse, string>)
    ensures outcome.DirectThrew? ==> r == Failure(GetErrorMessage(outcome.error))
    ensures outcome.DirectAnswered? ==>
      && r.Success? && r.value.status == outcome.status
      && r.value.statusText == outcome.statusText && r.value.headers == outcome.headers
      && r.value.data == Some(ParseResponse(outcome.contentType, outcome.read))
      && r.value.time == outcome.elapsed && r.value.size == FormatBytes(outcome.bytes)
  {
    match outcome
    case DirectThrew(e) => Failure(GetErrorMessage(e))
    case DirectAnswered(status, statusText, headers, contentType, read, elapsed, bytes) =>
      Success(ApiResponse(status, statusText, headers, Some(ParseResponse(contentType, read)), elapsed, FormatBytes(bytes)))
  }

  /** The catch of `makeRequest`, which classifies again what `executeRequest` threw. */
  function Reclassify(r: Result<ApiResponse, string>): Result<ApiResponse, string> {
    match r
    case Success(v) => Success(v)
    case Failure(m) => Failure(GetErrorMessage(Thrown(m)))
  }

  /**
   * `makeRequest(config)`: route the request, then turn the outcome of the
   * network call into the response or the message thrown to the caller.
   */
  method MakeRequest(config: RequestConfig, appOrigin: string, parse: UrlParser, freshId: Uuid, executeId: Uuid,
                     direct: DirectOutcome, proxy: ProxyOutcome)
    returns (updated: RequestConfig, route: Route, result: Result<ApiResponse, string>)
    ensures route.Proxied? <==> !IsInternalUrl(config.url, appOrigin, parse)
    ensures route.Proxied? ==> updated.sessionId.Some? && updated.sessionId.value != ""
    ensures route.Proxied? && Given(config.sessionId) ==> updated == config
    ensures route.Proxied? && !Given(config.sessionId) ==> updated == config.(sessionId := Some(freshId))
    ensures route.Proxied? ==> route.target == BackendUrl && route.envelope == ExecuteEnvelope(updated, executeId)
    ensures route.Proxied? ==> route.envelope.sessionId == SessionIdOr(config, freshId)
    ensures route.Direct? ==> updated == config && route.url == config.url
    ensures route.Direct? ==> route.init == RequestInit(config.httpMethod, DirectHeaders(UserHeaders(config.headers)), BodyToSend(config))
    ensures route.Proxied? ==> result == Reclassify(ExecuteResult(proxy))
    ensures route.Direct? ==> result == DirectResult(direct)
  {
    updated, route := RouteRequest(config, appOrigin, parse, freshId, executeId);
    if route.Proxied? {
      result := ExecuteResult(proxy);
      if result.Failure? {
        result := Failure(GetErrorMessage(Thrown(result.error)));
      }
    } else {
      result := DirectResult(direct);
    }
  }

  /** On the proxy path a thrown value is classified twice. */
  lemma ProxyClassifiesTwice(e: Option<ErrorValue>)
    ensures Reclassify(ExecuteResult(ProxyThrew(e))) == Failure(GetErrorMessage(Thrown(GetErrorMessage(e))))
  {
  }

  /** On the proxy path, a failed `fetch` blamed on CORS ends with the short CORS text. */
  lemma ProxyCorsShortened(e: ErrorValue)
    requires e.name == "TypeError" && Contains(e.message, "fetch") && Contains(e.message, "CORS")
    ensures Reclassify(ExecuteResult(ProxyThrew(Some(e)))) == Failure(CorsBlocked)
  {
    CorsFetchTextShortens();
  }

  /**
   * A non-OK proxy reply whose one-line text mentions `Internal Server Error`
   * (and none of the earlier phrases) surfaces that text, trimmed.
   */
  lemma ProxyBackendInternal(text: string, statusText: string)
    requires text != ""
    requires forall i :: 0 <= i < |text| ==> !IsLineTerminator(text[i])
    requires Contains(text, InternalServerError)
    requires var m := BackendPrefix + text;
      !Contains(m, "CORS") && !Contains(m, "ERR_FAILED") && !Contains(m, NoProtocol)
    ensures ExecuteResult(ProxyNotOk(text, statusText)) == Failure(Trim(text))
  {
    var m := BackendPrefix + text;
    assert BackendError(text, statusText) == m;
    ContainsExtend(BackendPrefix, text, InternalServerError);
    MatchRestOfLineAtStart(BackendPrefix, text);
    LineFromWhole(text);
  }

  /** A direct-path failure is classified once. */
  lemma DirectClassifiesOnce(e: Option<ErrorValue>)
    ensures DirectResult(DirectThrew(e)) == Failure(GetErrorMessage(e))
  {
  }
}
