/**
 * The request editor: sending and saving the form, the character scan that
 * turns quoted URLs of a pretty-printed JSON text into links, the choice of
 * error panel, and the header-count badge.
 */
module ApiTester {
  import opened Wrappers
  import opened Strings
  import opened Types
  import opened Utils
  import opened ApiService
  import opened SessionStorage
  import opened UseApi
  import opened KeyValueTable

  // ---------------------------------------------------------------------------
  // The form

  /** The header rows a request brings into the form: its own when it has any, one empty row otherwise. */
  function InitialHeaders(headers: Option<seq<Header>>): (r: seq<Header>)
    ensures r != []
    ensures headers.Some? && headers.value != [] ==> r == headers.value
    ensures headers.None? || headers.value == [] ==> r == [EmptyRow]
  {
    if headers.Some? && headers.value != [] then headers.value else [EmptyRow]
  }

  /** `x || ''` for an optional string. */
  function OrEmpty(s: Option<string>): (r: string)
    ensures s.Some? ==> r == s.value
    ensures s.None? ==> r == ""
  {
    s.GetOr("")
  }

  /** A URL that is not blank stays non-blank once corrected, so the hook always accepts it. */
  lemma CorrectedNotBlank(url: string)
    requires !Blank(url)
    ensures !Blank(SuggestUrlCorrection(url).GetOr(url))
  {
    var sent := SuggestUrlCorrection(url).GetOr(url);
    BlankIffAllWhitespace(url);
    BlankIffAllWhitespace(sent);
    if SuggestUrlCorrection(url).Some? {
      assert sent[0] == 'h';
    }
  }

  /** The form's state, and the request hook it drives. */
  class Form {
    var httpMethod: string
    var url: string
    var headers: seq<Header>
    var body: string
    var saved: bool
    const hook: ApiHook

    /** The state the editor opens with, from the request it was given, if any. */
    constructor(initial: Option<RequestConfig>)
      ensures initial.None? ==> httpMethod == "GET" && url == "" && body == ""
      ensures initial.Some? ==>
        && httpMethod == (if initial.value.httpMethod == "" then "GET" else initial.value.httpMethod)
        && url == initial.value.url && body == OrEmpty(initial.value.body)
      ensures headers == InitialHeaders(if initial.Some? then initial.value.headers else None)
      ensures !saved && fresh(hook)
      ensures hook.response.None? && !hook.loading && hook.error.None?
    {
      httpMethod := if initial.Some? && initial.value.httpMethod != "" then initial.value.httpMethod else "GET";
      url := if initial.Some? then initial.value.url else "";
      headers := InitialHeaders(if initial.Some? then initial.value.headers else None);
      body := if initial.Some? then OrEmpty(initial.value.body) else "";
      saved := false;
      hook := new ApiHook();
    }

    /** The request the form describes, with the URL as typed. */
    function Config(): (c: RequestConfig)
      reads this
      ensures c.httpMethod == httpMethod && c.url == url && c.body == Some(body) && c.sessionId.None?
      ensures c.headers == Some(headers)
    {
      RequestConfig(httpMethod, url, Some(headers), Some(body), None)
    }

    /** Loading a request from the history: its method, URL, rows and body replace the form's. */
    method LoadRequest(request: RequestConfig)
      modifies this
      ensures httpMethod == request.httpMethod && url == request.url
      ensures headers == InitialHeaders(request.headers) && body == OrEmpty(request.body)
      ensures saved == old(saved)
    {
      httpMethod := request.httpMethod;
      url := request.url;
      headers := InitialHeaders(request.headers);
      body := OrEmpty(request.body);
    }

    /**
     * `handleSendRequest()`, with `outcome` standing for what the request
     * service resolves or rejects with. A blank URL sends nothing; otherwise
     * the URL is corrected in the form and the request is sent with the rows
     * as they are.
     */
    method HandleSendRequest(outcome: Result<ApiResponse, Rejection>) returns (sent: Option<RequestConfig>)
      modifies this, hook
      ensures httpMethod == old(httpMethod) && headers == old(headers) && body == old(body)
      ensures Blank(old(url)) ==> sent.None? && url == old(url) && saved == old(saved)
      ensures Blank(old(url)) ==>
        hook.response == old(hook.response) && hook.error == old(hook.error) && hook.loading == old(hook.loading)
      ensures !Blank(old(url)) ==>
        && url == SuggestUrlCorrection(old(url)).GetOr(old(url))
        && sent == Some(RequestConfig(httpMethod, url, Some(headers), Some(body), None))
        && !saved && hook.Settled()
      ensures !Blank(old(url)) && outcome.Success? ==> hook.response == Some(outcome.value) && hook.error.None?
      ensures !Blank(old(url)) && outcome.Failure? ==>
        hook.response.None? && hook.error == Some(RejectionMessage(outcome.error))
    {
      if Blank(url) {
        return None;
      }
      hook.ClearError();
      saved := false;
      var processedUrl := url;
      if !HasHttpScheme(processedUrl) && !StartsWith(processedUrl, "/") {
        processedUrl := "https://" + processedUrl;
        url := processedUrl;
      }
      CorrectedNotBlank(old(url));
      var config := RequestConfig(httpMethod, processedUrl, Some(headers), Some(body), None);
      var called, _ := hook.SendRequest(config, outcome);
      sent := Some(config);
    }

    /** `handleSaveRequest()`: store the form's request, with the URL as typed, and the current response. */
    method HandleSaveRequest(store: SessionStorageService, parse: UrlParser, id: Uuid, now: int, writeOk: bool)
      returns (entry: SavedRequest)
      modifies this, store
      ensures httpMethod == old(httpMethod) && url == old(url) && headers == old(headers) && body == old(body)
      ensures saved
      ensures entry.id == id && entry.request == old(Config()) && entry.response == hook.response
      ensures entry.name == GenerateRequestName(old(Config()), parse) && entry.timestamp == now
      ensures writeOk ==> store.item == Some(Requests([entry] + old(store.GetSavedRequests())))
      ensures !writeOk ==> store.item == old(store.item)
    {
      entry := store.SaveRequest(Config(), hook.response, None, parse, id, now, writeOk);
      saved := true;
    }
  }

  /**
   * The editor just after mounting: the state initialisers, then the effect
   * on `initialRequest`, which loads a given request once more and so drops
   * the `GET` default for an empty method.
   */
  method Mount(initial: Option<RequestConfig>) returns (f: Form)
    ensures fresh(f) && fresh(f.hook) && !f.saved
    ensures initial.None? ==> f.httpMethod == "GET" && f.url == "" && f.body == ""
    ensures initial.Some? ==>
      && f.httpMethod == initial.value.httpMethod && f.url == initial.value.url
      && f.body == OrEmpty(initial.value.body)
    ensures f.headers == InitialHeaders(if initial.Some? then initial.value.headers else None)
    ensures f.hook.response.None? && !f.hook.loading && f.hook.error.None?
  {
    f := new Form(initial);
    if initial.Some? {
      f.LoadRequest(initial.value);
    }
  }

  // ---------------------------------------------------------------------------
  // Links in the pretty-printed response

  const Quote := '"'

  /** The link wrapping a collected URL. */
  function Anchor(u: string): string {
    "<a href=\"" + u + "\" target=\"_blank\" rel=\"noopener noreferrer\" class=\"text-primary hover:underline\">" + u + "</a>"
  }

  /** The scan's variables: `htmlContent`, `inQuotes`, `currentUrl`, `isCollectingUrl`. */
  datatype Scan = Scan(html: string, inQuotes: bool, currentUrl: string, collecting: bool)

  const Start := Scan("", false, "", false)

  function Min(a: int, b: int): int {
    if a <= b then a else b
  }

  /** `jsonString.substring(i + 1, i + 9)`: up to eight characters after position `i`. */
  function Window(s: string, i: nat): (w: string)
    requires i < |s|
    ensures |w| <= 8 && |w| <= |s| - (i + 1) && w == s[i + 1..][..|w|]
  {
    s[i + 1..Min(i + 9, |s|)]
  }

  /** The characters after position `i` open with `http://` or `https:/`. */
  predicate UrlAhead(s: string, i: nat)
    requires i < |s|
  {
    StartsWith(Window(s, i), "http://") || StartsWith(Window(s, i), "https:/")
  }

  /** The eight-character window decides exactly what the whole rest would. */
  lemma UrlAheadIff(s: string, i: nat)
    requires i < |s|
    ensures UrlAhead(s, i) <==> StartsWith(s[i + 1..], "http://") || StartsWith(s[i + 1..], "https:/")
  {
    var w := Window(s, i);
    if |s| - (i + 1) >= 8 {
      assert w == s[i + 1..][..8];
      assert w[..7] == s[i + 1..][..7];
    } else {
      assert w == s[i + 1..];
    }
  }

  /** One iteration of the loop, at position `i`. */
  function Step(s: string, i: nat, st: Scan): Scan
    requires i < |s|
  {
    var c := s[i];
    if c == Quote then
      if !st.inQuotes then
        if UrlAhead(s, i) then Scan(st.html + [c], true, "", true)
        else st.(html := st.html + [c], inQuotes := true)
      else if st.collecting then Scan(st.html + Anchor(st.currentUrl) + [c], false, st.currentUrl, false)
      else st.(html := st.html + [c], inQuotes := false)
    else if st.inQuotes && st.collecting then st.(currentUrl := st.currentUrl + [c])
    else st.(html := st.html + [c])
  }

  /** The loop run from position `i` on, in state `st`. */
  function ScanFrom(s: string, i: nat, st: Scan): Scan
    requires i <= |s|
    decreases |s| - i
  {
    if i == |s| then st else ScanFrom(s, i + 1, Step(s, i, st))
  }

  /** The text the loop builds from `jsonString`, before the syntax highlighting. */
  function RenderLinks(s: string): string {
    ScanFrom(s, 0, Start).html
  }

  /** The `for` loop of `renderJsonWithLinks`. */
  method RenderJsonWithLinks(jsonString: string) returns (htmlContent: string)
    ensures htmlContent == RenderLinks(jsonString)
  {
    htmlContent := "";
    var inQuotes := false;
    var currentUrl := "";
    var isCollectingUrl := false;
    for i := 0 to |jsonString|
      invariant ScanFrom(jsonString, i, Scan(htmlContent, inQuotes, currentUrl, isCollectingUrl))
             == ScanFrom(jsonString, 0, Start)
    {
      var c := jsonString[i];
      if c == Quote {
        if !inQuotes {
          inQuotes := true;
          htmlContent := htmlContent + [c];
          var nextChars := jsonString[i + 1..Min(i + 9, |jsonString|)];
          if StartsWith(nextChars, "http://") || StartsWith(nextChars, "https:/") {
            isCollectingUrl := true;
            currentUrl := "";
          }
        } else {
          inQuotes := false;
          if isCollectingUrl {
            htmlContent := htmlContent + Anchor(currentUrl);
            isCollectingUrl := false;
          }
          htmlContent := htmlContent + [c];
        }
      } else if inQuotes && isCollectingUrl {
        currentUrl := currentUrl + [c];
      } else {
        htmlContent := htmlContent + [c];
      }
    }
  }

  /** No quote at or after `i` opens a URL: every character is copied through. */
  lemma {:induction false} CopiedFrom(s: string, i: nat, st: Scan)
    requires i <= |s| && !st.collecting
    requires forall k :: i <= k < |s| && s[k] == Quote ==> !UrlAhead(s, k)
    ensures ScanFrom(s, i, st).html == st.html + s[i..]
    decreases |s| - i
  {
    if i == |s| {
      assert s[i..] == [];
    } else {
      var next := Step(s, i, st);
      assert next.html == st.html + [s[i]] && !next.collecting;
      CopiedFrom(s, i + 1, next);
      assert s[i..] == [s[i]] + s[i + 1..];
    }
  }

  /** Without a quote followed by `http://` or `https:/`, the text comes out as it went in. */
  lemma NoLinkKeepsText(s: string)
    requires forall k :: 0 <= k < |s| && s[k] == Quote ==> !UrlAhead(s, k)
    ensures RenderLinks(s) == s
  {
    CopiedFrom(s, 0, Start);
    assert s[0..] == s;
  }

  /** Outside a link run, a stretch without quotes is copied through. */
  lemma {:induction false} PlainStretch(s: string, i: nat, j: nat, st: Scan)
    requires i <= j <= |s| && !st.collecting
    requires forall k :: i <= k < j ==> s[k] != Quote
    ensures ScanFrom(s, i, st) == ScanFrom(s, j, st.(html := st.html + s[i..j]))
    decreases j - i
  {
    if i == j {
      assert st.html + s[i..j] == st.html;
    } else {
      assert s[i] != Quote;
      var next := st.(html := st.html + [s[i]]);
      assert Step(s, i, st) == next;
      PlainStretch(s, i + 1, j, next);
      ExtendBySlice(st.html, s, i, j);
    }
  }

  /** Inside a link run, characters up to the next quote are collected and nothing is emitted. */
  lemma {:induction false} CollectStretch(s: string, i: nat, j: nat, st: Scan)
    requires i <= j <= |s| && st.inQuotes && st.collecting
    requires forall k :: i <= k < j ==> s[k] != Quote
    ensures ScanFrom(s, i, st) == ScanFrom(s, j, st.(currentUrl := st.currentUrl + s[i..j]))
    decreases j - i
  {
    if i == j {
      assert st.currentUrl + s[i..j] == st.currentUrl;
    } else {
      assert s[i] != Quote;
      var next := st.(currentUrl := st.currentUrl + [s[i]]);
      assert Step(s, i, st) == next;
      CollectStretch(s, i + 1, j, next);
      ExtendBySlice(st.currentUrl, s, i, j);
    }
  }

  /** Appending one character and then the rest of a slice appends the slice. */
  lemma ExtendBySlice(t: string, s: string, i: nat, j: nat)
    requires i < j <= |s|
    ensures t + [s[i]] + s[i + 1..j] == t + s[i..j]
  {
    assert s[i..j] == [s[i]] + s[i + 1..j];
  }

  /**
   * A quoted run that opens with `http://` or `https:/` comes out as its
   * opening quote, a link around the run, and its closing quote.
   */
  lemma QuotedLink(s: string, i: nat, j: nat, st: Scan)
    requires i < j < |s| && s[i] == Quote && s[j] == Quote && !st.inQuotes && UrlAhead(s, i)
    requires forall k :: i < k < j ==> s[k] != Quote
    ensures ScanFrom(s, i, st)
         == ScanFrom(s, j + 1, Scan(st.html + [Quote] + Anchor(s[i + 1..j]) + [Quote], false, s[i + 1..j], false))
  {
    var open := Scan(st.html + [Quote], true, "", true);
    assert Step(s, i, st) == open;
    CollectStretch(s, i + 1, j, open);
    assert "" + s[i + 1..j] == s[i + 1..j];
  }

  /** A link run the text never closes is collected and then lost: only its opening quote is emitted. */
  lemma UnclosedLinkDropped(s: string, i: nat, st: Scan)
    requires i < |s| && s[i] == Quote && !st.inQuotes && UrlAhead(s, i)
    requires forall k :: i < k < |s| ==> s[k] != Quote
    ensures ScanFrom(s, i, st).html == st.html + [Quote]
  {
    var open := Scan(st.html + [Quote], true, "", true);
    assert Step(s, i, st) == open;
    CollectStretch(s, i + 1, |s|, open);
  }

  /** A text whose only quotes are the two around a URL at `i` and `j`: the URL is linked, the rest is copied. */
  lemma LinkBetween(s: string, i: nat, j: nat)
    requires i < j < |s| && s[i] == Quote && s[j] == Quote && UrlAhead(s, i)
    requires forall k :: 0 <= k < i ==> s[k] != Quote
    requires forall k :: i < k < j ==> s[k] != Quote
    requires forall k :: j + 1 <= k < |s| ==> s[k] != Quote
    ensures RenderLinks(s) == s[..i] + [Quote] + Anchor(s[i + 1..j]) + [Quote] + s[j + 1..]
  {
    var link := s[..i] + [Quote] + Anchor(s[i + 1..j]) + [Quote];
    var after := Scan(link, false, s[i + 1..j], false);
    LinkBetweenHead(s, i, j);
    PlainStretch(s, j + 1, |s|, after);
    var done := after.(html := link + s[j + 1..|s|]);
    assert ScanFrom(s, |s|, done) == done;
  }

  /** Up to and including its closing quote, such a text is scanned into the copied prefix and the link. */
  lemma LinkBetweenHead(s: string, i: nat, j: nat)
    requires i < j < |s| && s[i] == Quote && s[j] == Quote && UrlAhead(s, i)
    requires forall k :: 0 <= k < i ==> s[k] != Quote
    requires forall k :: i < k < j ==> s[k] != Quote
    ensures ScanFrom(s, 0, Start)
         == ScanFrom(s, j + 1, Scan(s[..i] + [Quote] + Anchor(s[i + 1..j]) + [Quote], false, s[i + 1..j], false))
  {
    PlainStretch(s, 0, i, Start);
    assert "" + s[0..i] == s[..i];
    QuotedLink(s, i, j, Start.(html := s[..i]));
  }

  /** A text with one quoted URL and no other quote: the URL is linked, the rest is copied. */
  lemma OneLink(a: string, u: string, b: string)
    requires Quote !in a && Quote !in u && Quote !in b
    requires StartsWith(u, "http://") || StartsWith(u, "https:/")
    ensures RenderLinks(a + [Quote] + u + [Quote] + b) == a + [Quote] + Anchor(u) + [Quote] + b
  {
    var s := a + [Quote] + u + [Quote] + b;
    var i, j := |a|, |a| + 1 + |u|;
    OneLinkPieces(a, u, b, s);
    OneLinkOpens(a, u, b, s);
    LinkBetween(s, i, j);
  }

  /** Where the pieces of a one-link text sit. */
  lemma OneLinkPieces(a: string, u: string, b: string, s: string)
    requires Quote !in a && Quote !in u && Quote !in b
    requires s == a + [Quote] + u + [Quote] + b
    ensures s[..|a|] == a && s[|a| + 1..|a| + 1 + |u|] == u && s[|a| + 2 + |u|..] == b
    ensures s[|a|] == Quote && s[|a| + 1 + |u|] == Quote
    ensures forall k :: 0 <= k < |a| ==> s[k] != Quote
    ensures forall k :: |a| < k < |a| + 1 + |u| ==> s[k] != Quote
    ensures forall k :: |a| + 2 + |u| <= k < |s| ==> s[k] != Quote
  {
    assert forall k :: 0 <= k < |a| ==> s[k] == a[k];
    assert forall k :: |a| < k < |a| + 1 + |u| ==> s[k] == u[k - |a| - 1];
    assert forall k :: |a| + 2 + |u| <= k < |s| ==> s[k] == b[k - |a| - 2 - |u|];
  }

  /** The quote of a one-link text is followed by its URL. */
  lemma OneLinkOpens(a: string, u: string, b: string, s: string)
    requires StartsWith(u, "http://") || StartsWith(u, "https:/")
    requires s == a + [Quote] + u + [Quote] + b
    ensures UrlAhead(s, |a|)
  {
    assert s[|a| + 1..] == u + [Quote] + b;
    UrlAheadIff(s, |a|);
  }

  // ---------------------------------------------------------------------------
  // The error panel

  const CorsMark := "CORS Error"
  const NetworkMark := "Network Error"
  const BackendMark := "Backend error:"
  const ProtocolSeparator := "no protocol: "

  /** `piece` is a prefix of `rest` free of `sep` that ends where `rest` does or where `sep` next starts. */
  predicate PieceOf(rest: string, sep: string, piece: string) {
    && |piece| <= |rest| && piece == rest[..|piece|] && !Contains(piece, sep)
    && (|piece| == |rest| || StartsWith(rest[|piece|..], sep))
  }

  /**
   * `s.split(sep)[1]` for a non-empty separator: the text after the first
   * occurrence up to the next one or the end; `None` (`undefined`) when `sep`
   * does not occur.
   */
  function SecondPiece(s: string, sep: string): (r: Option<string>)
    requires sep != []
    ensures r.None? <==> !Contains(s, sep)
    ensures r.Some? ==> PieceOf(s[IndexOf(s, sep).value + |sep|..], sep, r.value)
  {
    match IndexOf(s, sep)
    case None => None
    case Some(i) =>
      var rest := s[i + |sep|..];
      match IndexOf(rest, sep)
      case None =>
        assert rest[..|rest|] == rest;
        Some(rest)
      case Some(j) =>
        BeforeFirstLacks(rest, sep, j);
        Some(rest[..j])
  }

  /** When `sep` occurs first at `i` and not after it, the second piece is everything after it. */
  lemma SecondPieceIsRest(s: string, sep: string, i: nat)
    requires sep != [] && i + |sep| <= |s| && StartsWith(s[i..], sep)
    requires forall j :: 0 <= j < i ==> !StartsWith(s[j..], sep)
    requires !Contains(s[i + |sep|..], sep)
    ensures SecondPiece(s, sep) == Some(s[i + |sep|..])
  {
    IndexOfAt(s, sep, i);
  }

  /** Which panel the error area shows. */
  datatype ErrorPanel =
    | MissingProtocolPanel(suggestion: Option<string>)
    | CorsPanel
    | NetworkPanel
    | GenericPanel(text: string)

  /** The first branch whose text occurs in the error, in the order the panel tests them. */
  function ErrorDisplay(error: string): (p: ErrorPanel)
    ensures p.MissingProtocolPanel? <==> Contains(error, NoProtocol)
    ensures p.CorsPanel? <==> !Contains(error, NoProtocol) && Contains(error, CorsMark)
    ensures p.NetworkPanel? <==> !Contains(error, NoProtocol) && !Contains(error, CorsMark) && Contains(error, NetworkMark)
    ensures p.MissingProtocolPanel? ==> (p.suggestion.Some? <==> Contains(error, ProtocolSeparator))
    ensures p.GenericPanel? && !Contains(error, BackendMark) ==> p.text == error
    ensures p.MissingProtocolPanel? ==> p.suggestion == SecondPiece(error, ProtocolSeparator)
    ensures p.GenericPanel? ==> p.text == ReplaceFirst(error, BackendMark, "")
    ensures p.GenericPanel? && Contains(error, BackendMark) ==> |p.text| == |error| - |BackendMark|
  {
    if Contains(error, NoProtocol) then MissingProtocolPanel(SecondPiece(error, ProtocolSeparator))
    else if Contains(error, CorsMark) then CorsPanel
    else if Contains(error, NetworkMark) then NetworkPanel
    else GenericPanel(ReplaceFirst(error, BackendMark, ""))
  }

  /** The error area: a panel only for a non-empty error, as `error &&` renders it. */
  function ShownPanel(error: Option<string>): (p: Option<ErrorPanel>)
    ensures p.None? <==> error.None? || error.value == ""
    ensures p.Some? ==> p.value == ErrorDisplay(error.value)
  {
    if error.Some? && error.value != "" then Some(ErrorDisplay(error.value)) else None
  }

  /**
   * The classifier's missing-protocol answer gets the missing-protocol panel,
   * which suggests exactly the quoted URL when that URL does not itself
   * contain `no protocol: `.
   */
  lemma MissingProtocolAnswerPanel(url: string)
    ensures ErrorDisplay(NoProtocol + ": " + url).MissingProtocolPanel?
    ensures !Contains(url, ProtocolSeparator) ==> ErrorDisplay(NoProtocol + ": " + url).suggestion == Some(url)
  {
    var e := NoProtocol + ": " + url;
    ContainsPrefix(NoProtocol, ": " + url);
    assert e == NoProtocol + (": " + url);
    ProtocolSeparatorAt(url, e);
    if !Contains(url, ProtocolSeparator) {
      SecondPieceIsRest(e, ProtocolSeparator, 20);
    }
  }

  /** In the missing-protocol answer, `no protocol: ` first occurs at position 20 and is followed by the URL. */
  lemma ProtocolSeparatorAt(url: string, e: string)
    requires e == NoProtocol + ": " + url
    ensures 33 <= |e| && StartsWith(e[20..], ProtocolSeparator) && e[33..] == url
    ensures forall j :: 0 <= j < 20 ==> !StartsWith(e[j..], ProtocolSeparator)
  {
    var head := "Invalid URL format: ";
    assert e == head + ProtocolSeparator + url;
    assert e[20..] == ProtocolSeparator + url;
    StartsWithPrefix(ProtocolSeparator, url);
    forall j | 0 <= j < 20
      ensures !StartsWith(e[j..], ProtocolSeparator)
    {
      assert e[j] == head[j];
      if j < 19 {
        assert e[j + 1] == head[j + 1];
        assert head[j] != 'n' || head[j + 1] != 'o';
      } else {
        assert head[19] == ' ';
      }
    }
  }

  /** Both CORS answers of the classifier get the CORS panel. */
  lemma CorsAnswersPanel()
    ensures ErrorDisplay(CorsFetchError) == CorsPanel
    ensures ErrorDisplay(CorsBlocked) == CorsPanel
  {
    CorsAnswerLetters();
    MissingChar(CorsFetchError, NoProtocol, 'I');
    MissingChar(CorsBlocked, NoProtocol, 'I');
    CorsAnswersOpenWithMark();
    ContainsPrefix(CorsMark, CorsFetchError[|CorsMark|..]);
    ContainsPrefix(CorsMark, CorsBlocked[|CorsMark|..]);
  }

  lemma CorsAnswerLetters()
    ensures 'I' in NoProtocol && 'I' !in CorsFetchError && 'I' !in CorsBlocked
  {
    assert NoProtocol[0] == 'I';
    CorsFetchLetters();
  }

  lemma CorsFetchLetters()
    ensures 'I' !in CorsFetchError
  {
    assert 'I' !in "CORS Error: " && 'I' !in "The server does not allow ";
    assert 'I' !in "cross-origin requests " && 'I' !in "from this domain.";
  }

  lemma CorsAnswersOpenWithMark()
    ensures CorsFetchError == CorsMark + CorsFetchError[|CorsMark|..]
    ensures CorsBlocked == CorsMark + CorsBlocked[|CorsMark|..]
  {
    assert CorsFetchError[..|CorsMark|] == CorsMark;
    assert CorsBlocked[..|CorsMark|] == CorsMark;
  }

  /** The classifier's network answer gets the network panel. */
  lemma NetworkAnswerPanel()
    ensures ErrorDisplay(NetworkError) == NetworkPanel
  {
    NetworkErrorLetters();
    assert 'I' in NoProtocol && 'C' in CorsMark;
    MissingChar(NetworkError, NoProtocol, 'I');
    MissingChar(NetworkError, CorsMark, 'C');
    assert NetworkError == NetworkMark + NetworkError[|NetworkMark|..];
    ContainsPrefix(NetworkMark, NetworkError[|NetworkMark|..]);
  }

  /**
   * A backend answer that names none of the three panel marks falls to the
   * generic panel, which drops `Backend error:` and keeps the space after it.
   */
  lemma BackendAnswerPanel(t: string)
    requires !Contains(BackendPrefix + t, NoProtocol)
    requires !Contains(BackendPrefix + t, CorsMark)
    requires !Contains(BackendPrefix + t, NetworkMark)
    ensures ErrorDisplay(BackendPrefix + t) == GenericPanel(" " + t)
  {
    assert BackendPrefix == BackendMark + " ";
    assert BackendPrefix + t == BackendMark + (" " + t);
    ReplaceFirstAtStart(BackendMark, " " + t);
  }

  // ---------------------------------------------------------------------------
  // The header badge

  /** The badge on the headers tab: the count of enabled rows with a key, shown only when positive. */
  function HeaderBadge(headers: seq<Header>): (r: Option<nat>)
    ensures r.Some? <==> exists i :: 0 <= i < |headers| && Active(headers[i])
    ensures r.Some? ==> r.value >= 1 && r.value == EnabledCount(headers)
  {
    var n := EnabledCount(headers);
    if n > 0 then Some(n) else None
  }

  /** A freshly added row changes nothing on the badge. */
  lemma BadgeIgnoresNewRow(headers: seq<Header>)
    ensures HeaderBadge(AddRow(headers)) == HeaderBadge(headers)
  {
    AddRowKeepsCount(headers);
  }
}
