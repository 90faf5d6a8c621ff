/**
 * The helpers of the application's utility library: byte and time
 * formatting, status colours, descriptions and categories, URL checks and
 * correction, and header sanitising.
 */
module Utils {
  import opened Wrappers
  import opened Strings
  import opened Types

  function Pow(b: nat, e: nat): (r: nat)
    ensures b >= 1 ==> r >= 1
    decreases e
  {
    if e == 0 then 1 else b * Pow(b, e - 1)
  }

  /** The unit index `Math.floor(Math.log(bytes) / Math.log(1024))`, computed exactly. */
  function UnitIndex(bytes: nat): (i: nat)
    requires bytes > 0
    ensures Pow(1024, i) <= bytes < Pow(1024, i + 1)
    decreases bytes
  {
    if bytes < 1024 then 0
    else
      var k := UnitIndex(bytes / 1024);
      var p := Pow(1024, k);
      assert p <= bytes / 1024 < 1024 * p;
      assert 1024 * p <= 1024 * (bytes / 1024) <= bytes;
      assert bytes < 1024 * (bytes / 1024) + 1024 <= 1024 * (1024 * p);
      k + 1
  }

  /** `sizes[i]`, which is `undefined` past the last entry. */
  function UnitName(i: nat): string {
    if i < 4 then ["B", "KB", "MB", "GB"][i] else "undefined"
  }

  /** `formatBytes(bytes)`. */
  function FormatBytes(bytes: nat): (r: Rendered)
    ensures bytes == 0 <==> r == Text("0 B")
    ensures bytes > 0 ==>
      r.ShortDecimal? && r.numerator == bytes && r.denominator <= bytes < 1024 * r.denominator
    ensures bytes > 0 ==>
      r == ShortDecimal(bytes, Pow(1024, UnitIndex(bytes)), " " + UnitName(UnitIndex(bytes)))
    ensures 0 < bytes < Pow(1024, 4) ==> r.suffix in {" B", " KB", " MB", " GB"}
  {
    if bytes == 0 then Text("0 B")
    else
      var i := UnitIndex(bytes);
      UnitIndexBelowTerabyte(bytes);
      if i < 4 then
        UnitNameListed(i);
        ShortDecimal(bytes, Pow(1024, i), " " + UnitName(i))
      else
        ShortDecimal(bytes, Pow(1024, i), " " + UnitName(i))
  }

  /** Multiplying by a positive factor never shrinks a natural number. */
  lemma MulGrows(b: nat, x: nat)
    requires b >= 1
    ensures x <= b * x
  {
    assert b * x == x + (b - 1) * x;
  }

  lemma {:induction false} PowMonotonic(b: nat, d: nat, e: nat)
    requires b >= 1 && d <= e
    ensures Pow(b, d) <= Pow(b, e)
    decreases e
  {
    if d < e {
      PowMonotonic(b, d, e - 1);
      MulGrows(b, Pow(b, e - 1));
    }
  }

  /** Below 1024^4 bytes the index picks one of the four listed units. */
  lemma UnitIndexBelowTerabyte(bytes: nat)
    requires bytes > 0
    ensures bytes < Pow(1024, 4) ==> UnitIndex(bytes) < 4
  {
    if UnitIndex(bytes) >= 4 {
      PowMonotonic(1024, 4, UnitIndex(bytes));
    }
  }

  /** 1536 bytes are shown in kilobytes, 1.5 of them. */
  lemma FormatBytesKilobytes()
    ensures FormatBytes(1536) == ShortDecimal(1536, 1024, " KB")
  {
    assert UnitIndex(1536) == 1;
  }

  /**
   * `formatTime(ms)`: the millisecond count below one second, seconds with
   * one decimal below a minute, and minutes and seconds from one minute on.
   */
  function FormatTime(ms: int): (r: Rendered)
    ensures ms < 1000 ==> r == Text(IntToString(ms) + "ms")
    ensures 1000 <= ms < 60000 ==> r == FixedDecimal(ms, 1000, "s")
    ensures r.Text? <==> ms < 1000 || ms >= 60000
  {
    if ms < 1000 then Text(IntToString(ms) + "ms")
    else if ms < 60000 then FixedDecimal(ms, 1000, "s")
    else Text(NatToString(ms / 60000) + "m " + NatToString((ms % 60000) / 1000) + "s")
  }

  /**
   * From one minute on, the text names the whole minutes and the whole
   * seconds left over: for any `m` and `sec < 60` bracketing `ms`.
   */
  lemma FormatTimeMinutes(ms: int, m: nat, sec: nat)
    requires ms >= 60000 && sec < 60
    requires m * 60000 + sec * 1000 <= ms < m * 60000 + sec * 1000 + 1000
    ensures FormatTime(ms) == Text(NatToString(m) + "m " + NatToString(sec) + "s")
  {
    var rest := ms - m * 60000;
    assert 0 <= rest < 60000;
    assert ms / 60000 == m;
    assert ms % 60000 == rest;
    assert rest / 1000 == sec;
  }

  const Destructive := "text-destructive"
  const Emerald := "bg-emerald-500/10 text-emerald-500"
  const Rose := "bg-rose-500/10 text-rose-500"
  const Amber := "bg-amber-500/10 text-amber-500"

  /** `getStatusColor(status)`. */
  function StatusColor(status: int): (r: string)
    ensures r == Destructive <==> status == 0
    ensures r == Emerald <==> 200 <= status < 300
    ensures r == Rose <==> status >= 400
    ensures r == Amber <==> status != 0 && !(200 <= status < 300) && status < 400
  {
    if status == 0 then Destructive
    else if 200 <= status < 300 then Emerald
    else if status >= 400 then Rose
    else Amber
  }

  /** `/^https?:\/\//i.test(url)`: the URL opens with `http://` or `https://` in any letter case. */
  predicate HasHttpScheme(url: string) {
    StartsWith(ToLower(url), "http://") || StartsWith(ToLower(url), "https://")
  }

  /** `suggestUrlCorrection(url)`, with `None` for `null`. */
  function SuggestUrlCorrection(url: string): (r: Option<string>)
    ensures r.Some? <==> url != "" && !HasHttpScheme(url) && !StartsWith(url, "/")
    ensures r.Some? ==> r.value == "https://" + url
  {
    if url == "" then None
    else if HasHttpScheme(url) then None
    else if StartsWith(url, "/") then None
    else Some("https://" + url)
  }

  lemma {:induction false} ToLowerAppend(a: string, b: string)
    ensures ToLower(a + b) == ToLower(a) + ToLower(b)
    decreases |a|
  {
    if a == [] {
      assert a + b == b;
    } else {
      assert (a + b)[0] == a[0] && (a + b)[1..] == a[1..] + b;
      ToLowerAppend(a[1..], b);
    }
  }

  /** A corrected URL needs no further correction. */
  lemma SuggestionIsFinal(url: string)
    requires SuggestUrlCorrection(url).Some?
    ensures HasHttpScheme(SuggestUrlCorrection(url).value)
    ensures SuggestUrlCorrection(SuggestUrlCorrection(url).value).None?
  {
    ToLowerAppend("https://", url);
    assert ToLower("https://") == "https://";
    StartsWithPrefix("https://", ToLower(url));
  }

  /**
   * `isValidUrl(url)`. `parse` stands for the `URL` constructor; only whether
   * it throws matters here.
   */
  function IsValidUrl(url: string, parse: UrlParser): (r: bool)
    ensures url == "" ==> !r
    ensures url != "" && StartsWith(url, "/") ==> r
  {
    if url == "" then false
    else if StartsWith(url, "/") then true
    else
      var urlToCheck := if HasHttpScheme(url) then url else "https://" + url;
      parse(urlToCheck).Some?
  }

  /**
   * For every other URL the check parses exactly the string that
   * `suggestUrlCorrection` proposes, or the URL itself when it proposes nothing.
   */
  lemma IsValidUrlParsesSuggestion(url: string, parse: UrlParser)
    requires url != "" && !StartsWith(url, "/")
    ensures IsValidUrl(url, parse) == parse(SuggestUrlCorrection(url).GetOr(url)).Some?
  {
  }

  /** `header.key.trim() && header.value.trim()`. */
  predicate Usable(h: Header) {
    !Blank(h.key) && !Blank(h.value)
  }

  /** A row that goes into a header record: usable and, when asked, not disabled. */
  predicate Counts(h: Header, onlyEnabled: bool) {
    Usable(h) && (onlyEnabled ==> NotDisabled(h))
  }

  /**
   * The record built by writing `record[key.trim()] = value.trim()` for every
   * counting row, in order. `onlyEnabled` false is `sanitizeHeaders`; true is
   * the filter-then-reduce of the request service.
   */
  function HeaderRecord(hs: seq<Header>, onlyEnabled: bool): map<string, string>
    decreases |hs|
  {
    if hs == [] then map[]
    else
      var acc := HeaderRecord(hs[..|hs| - 1], onlyEnabled);
      var h := hs[|hs| - 1];
      if Counts(h, onlyEnabled) then acc[Trim(h.key) := Trim(h.value)] else acc
  }

  lemma UnitNameListed(i: nat)
    requires i < 4
    ensures " " + UnitName(i) in {" B", " KB", " MB", " GB"}
  {
    if i == 0 { assert " " + "B" == " B"; }
    else if i == 1 { assert " " + "KB" == " KB"; }
    else if i == 2 { assert " " + "MB" == " MB"; }
    else { assert " " + "GB" == " GB"; }
  }

  /** Row `h` counts and supplies key `k`. */
  predicate Supplies(h: Header, onlyEnabled: bool, k: string) {
    Counts(h, onlyEnabled) && Trim(h.key) == k
  }

  /** Row `i` is the last row supplying its own trimmed key. */
  predicate LastSupplier(hs: seq<Header>, onlyEnabled: bool, i: int) {
    && 0 <= i < |hs|
    && Supplies(hs[i], onlyEnabled, Trim(hs[i].key))
    && forall j :: i < j < |hs| ==> !Supplies(hs[j], onlyEnabled, Trim(hs[i].key))
  }

  /** One unfolding of `HeaderRecord`, with the last row named. */
  lemma HeaderRecordStep(hs: seq<Header>, onlyEnabled: bool)
    requires hs != []
    ensures var last := hs[|hs| - 1]; var acc := HeaderRecord(hs[..|hs| - 1], onlyEnabled);
      HeaderRecord(hs, onlyEnabled) == if Counts(last, onlyEnabled) then acc[Trim(last.key) := Trim(last.value)] else acc
  {
  }

  /** The record holds exactly the trimmed keys of the counting rows. */
  lemma {:induction false} HeaderRecordKeys(hs: seq<Header>, onlyEnabled: bool, k: string)
    ensures k in HeaderRecord(hs, onlyEnabled) <==>
      exists i :: 0 <= i < |hs| && Supplies(hs[i], onlyEnabled, k)
    decreases |hs|
  {
    if hs != [] {
      HeaderRecordKeys(hs[..|hs| - 1], onlyEnabled, k);
      HeaderRecordStep(hs, onlyEnabled);
      SuppliersStep(hs, hs[..|hs| - 1], onlyEnabled, k);
    }
  }

  /** Some row supplies `k` iff the last one does or one before it does. */
  lemma SuppliersStep(hs: seq<Header>, init: seq<Header>, onlyEnabled: bool, k: string)
    requires hs != [] && init == hs[..|hs| - 1]
    ensures (exists i :: 0 <= i < |hs| && Supplies(hs[i], onlyEnabled, k)) <==>
      (exists i :: 0 <= i < |init| && Supplies(init[i], onlyEnabled, k))
      || Supplies(hs[|hs| - 1], onlyEnabled, k)
  {
    assert forall i :: 0 <= i < |init| ==> init[i] == hs[i];
  }

  /** Each key maps to the trimmed value of the last row that supplies it: a later duplicate wins. */
  lemma {:induction false} HeaderRecordLastWins(hs: seq<Header>, onlyEnabled: bool, i: int)
    requires LastSupplier(hs, onlyEnabled, i)
    ensures Trim(hs[i].key) in HeaderRecord(hs, onlyEnabled)
    ensures HeaderRecord(hs, onlyEnabled)[Trim(hs[i].key)] == Trim(hs[i].value)
    decreases |hs|
  {
    var n := |hs| - 1;
    HeaderRecordStep(hs, onlyEnabled);
    if i < n {
      var init := hs[..n];
      var k := Trim(hs[i].key);
      assert init[i] == hs[i];
      assert !Supplies(hs[n], onlyEnabled, k);
      forall j | i < j < n
        ensures !Supplies(init[j], onlyEnabled, k)
      {
        assert init[j] == hs[j];
      }
      assert LastSupplier(init, onlyEnabled, i);
      HeaderRecordLastWins(init, onlyEnabled, i);
    }
  }

  /** `sanitizeHeaders(headers)`: a loop filling a fresh record; any `enabled` flag is ignored. */
  method SanitizeHeaders(headers: seq<Header>) returns (sanitized: map<string, string>)
    ensures sanitized == HeaderRecord(headers, false)
  {
    sanitized := map[];
    var i := 0;
    while i < |headers|
      invariant 0 <= i <= |headers|
      invariant sanitized == HeaderRecord(headers[..i], false)
    {
      var header := headers[i];
      assert headers[..i + 1][..i] == headers[..i];
      if !Blank(header.key) && !Blank(header.value) {
        sanitized := sanitized[Trim(header.key) := Trim(header.value)];
      }
      i := i + 1;
    }
    assert headers[..i] == headers;
  }

  /** Disabling every row changes nothing for `sanitizeHeaders`. */
  lemma {:induction false} SanitizeIgnoresEnabled(hs: seq<Header>, flags: seq<Option<bool>>)
    requires |flags| == |hs|
    ensures HeaderRecord(seq(|hs|, i requires 0 <= i < |hs| => hs[i].(enabled := flags[i])), false)
         == HeaderRecord(hs, false)
    decreases |hs|
  {
    if hs != [] {
      var n := |hs| - 1;
      var relabelled := seq(|hs|, i requires 0 <= i < |hs| => hs[i].(enabled := flags[i]));
      SanitizeIgnoresEnabled(hs[..n], flags[..n]);
      assert relabelled[..n] == seq(n, i requires 0 <= i < n => hs[..n][i].(enabled := flags[..n][i]));
    }
  }

  /** `getStatusDescription`'s table entry for `status`, if it has one. */
  function StatusPhrase(status: int): Option<string> {
    match status
    case 100 => Some("Continue")
    case 101 => Some("Switching Protocols")
    case 102 => Some("Processing")
    case 103 => Some("Early Hints")
    case 200 => Some("OK")
    case 201 => Some("Created")
    case 202 => Some("Accepted")
    case 203 => Some("Non-Authoritative Information")
    case 204 => Some("No Content")
    case 205 => Some("Reset Content")
    case 206 => Some("Partial Content")
    case 207 => Some("Multi-Status")
    case 208 => Some("Already Reported")
    case 226 => Some("IM Used")
    case 300 => Some("Multiple Choices")
    case 301 => Some("Moved Permanently")
    case 302 => Some("Found")
    case 303 => Some("See Other")
    case 304 => Some("Not Modified")
    case 305 => Some("Use Proxy")
    case 307 => Some("Temporary Redirect")
    case 308 => Some("Permanent Redirect")
    case 400 => Some("Bad Request")
    case 401 => Some("Unauthorized")
    case 402 => Some("Payment Required")
    case 403 => Some("Forbidden")
    case 404 => Some("Not Found")
    case 405 => Some("Method Not Allowed")
    case 406 => Some("Not Acceptable")
    case 407 => Some("Proxy Authentication Required")
    case 408 => Some("Request Timeout")
    case 409 => Some("Conflict")
    case 410 => Some("Gone")
    case 411 => Some("Length Required")
    case 412 => Some("Precondition Failed")
    case 413 => Some("Payload Too Large")
    case 414 => Some("URI Too Long")
    case 415 => Some("Unsupported Media Type")
    case 416 => Some("Range Not Satisfiable")
    case 417 => Some("Expectation Failed")
    case 418 => Some("I'm a teapot")
    case 421 => Some("Misdirected Request")
    case 422 => Some("Unprocessable Content")
    case 423 => Some("Locked")
    case 424 => Some("Failed Dependency")
    case 425 => Some("Too Early")
    case 426 => Some("Upgrade Required")
    case 428 => Some("Precondition Required")
    case 429 => Some("Too Many Requests")
    case 431 => Some("Request Header Fields Too Large")
    case 451 => Some("Unavailable For Legal Reasons")
    case 500 => Some("Internal Server Error")
    case 501 => Some("Not Implemented")
    case 502 => Some("Bad Gateway")
    case 503 => Some("Service Unavailable")
    case 504 => Some("Gateway Timeout")
    case 505 => Some("HTTP Version Not Supported")
    case 506 => Some("Variant Also Negotiates")
    case 507 => Some("Insufficient Storage")
    case 508 => Some("Loop Detected")
    case 510 => Some("Not Extended")
    case 511 => Some("Network Authentication Required")
    case _ => None
  }

  const UnknownStatus := "Unknown Status"

  /** Every tabled phrase is non-empty and differs from the fallback. */
  lemma StatusPhraseNotFallback(status: int)
    ensures StatusPhrase(status).Some? ==> StatusPhrase(status).value != "" && StatusPhrase(status).value != UnknownStatus
  {
  }

  /** Every tabled code lies in one of the five status classes. */
  lemma StatusPhraseClasses(status: int)
    ensures StatusPhrase(status).Some? ==> 100 <= status < 600
  {
  }

  /**
   * `getStatusDescription(status)`: the listed phrase, or `"Unknown Status"`;
   * the fallback comes exactly for the codes the table lacks.
   */
  function StatusDescription(status: int): (r: string)
    ensures StatusPhrase(status).Some? ==> r == StatusPhrase(status).value
    ensures r == UnknownStatus <==> StatusPhrase(status).None?
  {
    StatusPhraseNotFallback(status);
    match StatusPhrase(status)
    case Some(p) => if p != "" then p else UnknownStatus
    case None => UnknownStatus
  }

  lemma StatusDescriptionExamples()
    ensures StatusDescription(404) == "Not Found"
    ensures StatusDescription(418) == "I'm a teapot"
    ensures StatusDescription(306) == UnknownStatus
    ensures StatusDescription(0) == UnknownStatus
  {
  }

  const Informational := "Informational response - Request received, continuing process"
  const Successful := "Success - Request was successfully received, understood, and accepted"
  const Redirection := "Redirection - Further action needs to be taken to complete the request"
  const ClientError := "Client error - Request contains bad syntax or cannot be fulfilled"
  const ServerError := "Server error - Server failed to fulfill a valid request"
  const UnknownCategory := "Unknown status code category"

  /** The status class: 0 below 100, otherwise the hundreds digit, with everything from 500 on in class 5. */
  function StatusClass(status: int): (c: nat)
    ensures c <= 5
  {
    if status < 100 then 0 else if status >= 500 then 5 else status / 100
  }

  /** `getStatusCodeCategory(status)`. */
  function StatusCodeCategory(status: int): (r: string)
    ensures r == [UnknownCategory, Informational, Successful, Redirection, ClientError, ServerError][StatusClass(status)]
  {
    if 100 <= status < 200 then Informational
    else if 200 <= status < 300 then Successful
    else if 300 <= status < 400 then Redirection
    else if 400 <= status < 500 then ClientError
    else if status >= 500 then ServerError
    else UnknownCategory
  }

  /** The six category texts are pairwise distinct, so two codes share a category iff they share a class. */
  lemma CategoryPartition(a: int, b: int)
    ensures StatusCodeCategory(a) == StatusCodeCategory(b) <==> StatusClass(a) == StatusClass(b)
  {
    assert |UnknownCategory| == 28 && |Informational| == 61 && |Successful| == 69;
    assert |Redirection| == 70 && |ClientError| == 65 && |ServerError| == 55;
  }

  /** The colour agrees with the category on the success and error classes; 1xx and 3xx share amber. */
  lemma StatusColorByCategory(status: int)
    ensures StatusColor(status) == Emerald <==> StatusClass(status) == 2
    ensures StatusColor(status) == Rose <==> StatusClass(status) >= 4
    ensures StatusClass(status) == 1 || StatusClass(status) == 3 ==> StatusColor(status) == Amber
  {
  }
}
