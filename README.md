# A browser HTTP-request tester, modelled in Dafny

The application is a desktop/browser tool for composing HTTP requests,
sending them either straight to their URL or through a backend proxy,
showing the response, and keeping a per-session history of saved
requests. This project models its sequential logic and proves properties of it:

- **Saved-request store** (`session_storage.dfy`, module `SessionStorage`).
  - A class over the one session-storage entry, which may be absent, a list or an unparsable text.
  - Save puts the new entry in front; update overlays the first entry with the id; delete filters; clear removes the entry; lookup returns the first entry with an id.
  - The default request name is built from the parsed URL.
- **Request service** (`api_service.dfy`, module `ApiService`).
  - Filtering and trimming of header rows.
  - The direct-vs-proxy decision.
  - Stripping of the browser-controlled keys. This matches keys exactly (case-sensitively).
  - The default headers laid under the user's. A body goes out only for POST, PUT and PATCH.
  - The proxy envelope and the defaults applied to its reply.
  - The ordered, substring-based error classifier. It is proved equal to a first-match over an explicit rule list.
  - On the proxy path, a thrown value is classified twice. A failed `fetch` blamed on CORS therefore ends with the short CORS text.
- **Utilities** (`utils.dfy`, module `Utils`).
  - Byte and time formatting, with the number rendering kept symbolic.
  - Status colour, reason-phrase table and status-class partition.
  - URL validity and `https://` suggestion.
  - Header sanitising, specified by the header record that the request service's filter also uses.
- **Request hook** (`use_api.dfy`, module `UseApi`).
  - The three state cells `response`, `loading` and `error`.
  - `sendRequest`, split at its `await` into a start step and a settle step, plus `clearResponse` and `clearError`.
- **Key/value table** (`key_value_table.dfy`, module `KeyValueTable`).
  - Row add, update (done on a fresh array copy, as the component does), remove and toggle.
  - Case-insensitive suppression of suggested system headers the user already has.
  - The count of enabled rows.
- **History list** (`request_history.dfy`, module `RequestHistory`).
  - Case-insensitive search over name or URL.
  - Relative age in minute and hour buckets.
  - Selection of an entry.
- **Request editor** (`api_tester.dfy`, module `ApiTester`).
  - The form state, its blank-URL guard and `https://` auto-prefix, and saving.
  - The character-scanning loop that wraps quoted URLs of the pretty-printed response in links. It is a method with a loop invariant, proved equal to a recursive specification.
  - The precedence of the error panels.
  - The header badge.

`strings.dfy` (module `Strings`) models the JavaScript string primitives the code relies on: `trim`, `toLowerCase`, `startsWith`, `includes`, `indexOf`, `replace` with a string pattern, `split` on one character, a one-line regular-expression capture, and decimal rendering of integers. `types.dfy` holds the shared record shapes. `wrappers.dfy` holds `Option` and `Result`.

The environment is passed in as parameters:
- the URL parser (`UrlParser`, `None` when `new URL` throws);
- the page origin;
- fresh UUIDs, generated ids and the clock reading;
- the outcome of every `fetch`, as datatypes;
- the locale rendering of a date.

Serialisation to and from JSON is abstracted: the storage entry is `Blob`.

## Model

| member | source | states |
|---|---|---|
| SessionStorage.SessionStorageService.constructor | src/services/sessionStorage.service.ts:11-16 | The store holds whatever the session entry holds, including nothing. |
| SessionStorage.ReadList | src/services/sessionStorage.service.ts:14-29 | An absent or unparsable entry reads as the empty list; a stored list reads as itself. |
| SessionStorage.SessionStorageService.GetSavedRequests | src/services/sessionStorage.service.ts:14-29 | Reading the store is `ReadList` of its entry, so it never fails. |
| SessionStorage.SessionStorageService.SaveRequest | src/services/sessionStorage.service.ts:31-50 | The entry carries the given id, request, response and timestamp. Its name is the supplied one when non-empty and the generated one otherwise. After a successful write the list is that entry followed by the previous list in order. A failed write leaves the store unchanged. |
| SessionStorage.NameFor | src/services/sessionStorage.service.ts:55-70 | The name is the host with its first `www.` removed. When the path has non-empty segments, it is followed by `" - "` and the last of them. |
| SessionStorage.GenerateRequestName | src/services/sessionStorage.service.ts:52-74 | A URL that does not parse gives `API Request`; one that parses gives `NameFor` of it. |
| SessionStorage.NameIgnoresTrailingSlash | src/services/sessionStorage.service.ts:58-64 | Appending `/` to the path does not change the name. |
| SessionStorage.NameSegmentIsLast | src/services/sessionStorage.service.ts:58-64 | When the path has segments, the name ends with the last one, which is non-empty and contains no `/`. |
| SessionStorage.NameOfRootPath | src/services/sessionStorage.service.ts:57-70 | A path made only of slashes names the host alone. |
| SessionStorage.WwwDropped | src/services/sessionStorage.service.ts:56-57 | A host `www.` + h with root path is named h. |
| SessionStorage.NameOfTwoSegmentPath | src/services/sessionStorage.service.ts:55-64 | Host `www.h` with path `/a/b` is named `h - b`. |
| SessionStorage.FindIndex | src/services/sessionStorage.service.ts:78 | The index found is the first position with the id; `None` means no entry has it. |
| SessionStorage.Overlay | src/services/sessionStorage.service.ts:80 | Every field replaced by the update takes the new value, and every other field keeps the old one. |
| SessionStorage.OverlayEmpty | src/services/sessionStorage.service.ts:80 | An update that replaces nothing leaves the entry as it was. |
| SessionStorage.SessionStorageService.UpdateRequest | src/services/sessionStorage.service.ts:76-84 | An unknown id writes nothing. Otherwise exactly the first entry with the id is overlaid and written back. |
| SessionStorage.UpdateTouchesOnlyFirst | src/services/sessionStorage.service.ts:78-82 | Every position other than the first match is unchanged by an update. |
| SessionStorage.UpdateSkipsDuplicates | src/services/sessionStorage.service.ts:78 | When several entries share an id, the one updated is the earliest. |
| SessionStorage.Without | src/services/sessionStorage.service.ts:88 | Filtering never lengthens the list. |
| SessionStorage.WithoutMembers | src/services/sessionStorage.service.ts:88 | An entry survives deletion iff it was stored and its id differs. |
| SessionStorage.WithoutAppend | src/services/sessionStorage.service.ts:88 | Deletion works piecewise over a concatenation, so the survivors keep their relative order. |
| SessionStorage.WithoutIdempotent | src/services/sessionStorage.service.ts:86-90 | Deleting the same id twice is the same as deleting it once. |
| SessionStorage.SessionStorageService.DeleteRequest | src/services/sessionStorage.service.ts:86-90 | The entry is always rewritten with the entries whose id differs. |
| SessionStorage.DeleteThenRead | src/services/sessionStorage.service.ts:86-90 | After a deletion, reading the store yields exactly the previous entries with another id. |
| SessionStorage.SessionStorageService.ClearAllRequests | src/services/sessionStorage.service.ts:92-94 | The entry is removed, and reading the store yields the empty list. |
| SessionStorage.SessionStorageService.GetRequestById | src/services/sessionStorage.service.ts:96-99 | The result is the first stored entry with the id. It is `None` iff no stored entry has it. |
| SessionStorage.SavedIsFound | src/services/sessionStorage.service.ts:96-99 | An entry just saved at the front is what a lookup of its id returns. |
| ApiService.FilterEnabledHeaders | src/services/api.service.ts:6-13 | A key is present iff some row that is not disabled, with non-blank key and value, has that trimmed key. It maps to the trimmed value of the last such row. |
| ApiService.UndefinedCountsAsEnabled | src/services/api.service.ts:8 | A row with no `enabled` flag is kept exactly like one flagged `true`. |
| ApiService.DisabledRowDropped | src/services/api.service.ts:8 | Removing a disabled row, wherever it sits, leaves the filtered headers unchanged. |
| ApiService.GetErrorMessage | src/services/api.service.ts:16 | A null or undefined thrown value gives `An unknown error occurred`. |
| ApiService.ClassifierIsFirstMatch | src/services/api.service.ts:15-58 | The classifier equals the answer of the first rule that fires, over the rules in source order, with the raw message or the generic text when none fires. |
| ApiService.FirstMatchPrecedence | src/services/api.service.ts:18-55 | A rule that fires with no earlier rule firing decides the answer. |
| ApiService.FirstMatchNone | src/services/api.service.ts:57 | When no rule fires, the result is the message, or the generic text for an empty one. |
| ApiService.CorsBeatsNotFound | src/services/api.service.ts:24-50 | A message mentioning both `CORS` and `404` gets the CORS text. |
| ApiService.CorsTexts | src/services/api.service.ts:18-26 | A `TypeError` about `fetch` that mentions CORS gets the long CORS text. Any other error mentioning CORS gets the short one. |
| ApiService.MissingProtocolQuotes | src/services/api.service.ts:33-37 | The missing-protocol answer quotes the rest of the line after `no protocol: `, which is non-empty. |
| ApiService.RawMessageKept | src/services/api.service.ts:39-57 | A message without any rule phrase comes back unchanged. This includes one that mentions `Internal Server Error` without `Backend error: `. |
| ApiService.KeptWithout | src/services/api.service.ts:24-57 | A message lacking a letter of each rule phrase is returned as is. |
| ApiService.NetworkErrorStable | src/services/api.service.ts:18-22 | The network-failure text classifies as itself. |
| ApiService.CorsBlockedStable | src/services/api.service.ts:24-26 | The short CORS text classifies as itself. |
| ApiService.CorsFetchTextShortens | src/services/api.service.ts:18-26 | Classifying the long CORS text again yields the short CORS text. |
| ApiService.IsInternalUrl | src/services/api.service.ts:60-68 | A parsable URL is internal iff its origin is the page's or it starts with `/api`. An unparsable one is internal iff it starts with `/` or `api`. |
| ApiService.ApiPathIsInternal | src/services/api.service.ts:62-63 | A URL starting with `/api` is never proxied, whatever the parser says. |
| ApiService.BackendUrlIsInternal | src/services/api.service.ts:165 | The proxy endpoint `/api/v1/requests/execute` is itself internal, whatever the parser says. |
| ApiService.DirectHeaders | src/services/api.service.ts:123-134 | The sent keys are the defaults plus the user keys other than the exact `user-agent`, `origin` and `referer`. User values win on shared keys; the other defaults stay. |
| ApiService.StripIsCaseSensitive | src/services/api.service.ts:123-127 | A user `User-Agent` in that letter case is sent unchanged. |
| ApiService.UserOverridesDefault | src/services/api.service.ts:130-134 | A user `Accept` replaces the default one, and `Content-Type` stays. |
| ApiService.BodyToSend | src/services/api.service.ts:139-141 | A body is attached iff it is non-empty and the method is POST, PUT or PATCH; then it is the configured body. |
| ApiService.SessionIdOr | src/services/api.service.ts:173 | The session id is the supplied non-empty one, or else the fresh UUID; it is never empty. |
| ApiService.ExecuteEnvelope | src/services/api.service.ts:176-187 | The envelope carries the method, URL and body unchanged, the filtered headers without stripping, and the session id. |
| ApiService.RouteRequest | src/services/api.service.ts:103-141 | The request is proxied iff the URL is not internal. On the proxy path a missing session id is written into the configuration, and the envelope that carries it is posted to `/api/v1/requests/execute`. On the direct path the configuration is unchanged, and `fetch` gets the method, `DirectHeaders` of the filtered headers and `BodyToSend`. |
| ApiService.ParseResponse | src/services/api.service.ts:70-81 | A JSON content type reads JSON, any other reads text, and a read that throws gives `Unable to parse response`. |
| ApiService.ReplyData | src/services/api.service.ts:199 | The data is the reply's `body` when truthy, otherwise its `data`. |
| ApiService.MapReply | src/services/api.service.ts:197-204 | The status is kept. The status text defaults to empty and the headers to `{}`. The time and size are the measured ones. |
| ApiService.ReplyDefaults | src/services/api.service.ts:197-204 | A reply without status text, headers or body gets empty text, no headers and its `data`. |
| ApiService.BackendError | src/services/api.service.ts:189-192 | A non-OK proxy reply raises `Backend error: ` followed by its text, or by its status text when the text is empty. |
| ApiService.ExecuteResult | src/services/api.service.ts:164-208 | A reply maps to its response. A non-OK reply and a thrown value each become the classified message. |
| ApiService.DirectResult | src/services/api.service.ts:143-161 | A direct answer becomes the formatted response with the parsed body; a thrown value becomes the classified message. |
| ApiService.MakeRequest | src/services/api.service.ts:103-162 | The routing of `RouteRequest`: proxied iff the URL is not internal; the session id, the backend target and the envelope on the proxy path; and the unchanged URL, the stripped and merged headers and the body rule on the direct path. The proxy result is `executeRequest`'s, classified once more in the catch, and the direct result is classified once. |
| ApiService.ProxyClassifiesTwice | src/services/api.service.ts:205-207 | On the proxy path a thrown value is classified, and the message is classified again. |
| ApiService.ProxyCorsShortened | src/services/api.service.ts:205-207 | On the proxy path, a failed `fetch` blamed on CORS ends with the short CORS text. |
| ApiService.ProxyBackendInternal | src/services/api.service.ts:189-192 | A non-OK reply whose one-line text mentions `Internal Server Error` surfaces that text, trimmed. |
| ApiService.DirectClassifiesOnce | src/services/api.service.ts:159-161 | A direct-path failure is classified exactly once. |
| Utils.UnitIndex | src/lib/utils.ts:15 | The unit index is the largest `i` with `1024^i <= bytes`. |
| Utils.FormatBytes | src/lib/utils.ts:12-18 | Zero bytes give `0 B`. Otherwise the value is the bytes divided by 1024 to the power `UnitIndex(bytes)`, with the name `sizes[UnitIndex(bytes)]` as its unit. That divisor is at most the bytes and more than bytes/1024. Below 1024^4 the unit is B, KB, MB or GB. |
| Utils.UnitIndexBelowTerabyte | src/lib/utils.ts:15-17 | Below 1024^4 bytes the index selects one of the four listed units. |
| Utils.FormatBytesKilobytes | src/lib/utils.ts:12-18 | 1536 bytes render as 1536/1024 in KB. |
| Utils.FormatTime | src/lib/utils.ts:20-24 | Below one second the text is the millisecond count followed by `ms`, negative counts included. From one second to under a minute it is the seconds with one decimal. The result is plain text exactly outside that middle range. |
| Utils.FormatTimeMinutes | src/lib/utils.ts:23 | From one minute on, the text is the whole minutes and the whole seconds left over, for any minutes and seconds that bracket the count. |
| Utils.StatusColor | src/lib/utils.ts:26-31 | 0 gives destructive, [200,300) emerald and >= 400 rose. Every other status gets amber. Each holds in both directions. |
| Utils.StatusColorByCategory | src/lib/utils.ts:26-31 | Emerald is exactly the success class and rose exactly the client and server error classes; 1xx and 3xx share amber. |
| Utils.SuggestUrlCorrection | src/lib/utils.ts:53-64 | A suggestion exists iff the URL is non-empty, has no `http(s)://` scheme in any case, and does not start with `/`. The suggestion is `https://` + url. |
| Utils.SuggestionIsFinal | src/lib/utils.ts:53-64 | A suggested URL has a scheme and needs no further suggestion. |
| Utils.IsValidUrl | src/lib/utils.ts:33-48 | The empty URL is invalid; one starting with `/` is valid. |
| Utils.IsValidUrlParsesSuggestion | src/lib/utils.ts:39-47 | Any other URL is valid iff the parser accepts the suggested correction, or the URL itself when there is none. |
| Utils.SanitizeHeaders | src/lib/utils.ts:70-78 | The loop builds the header record of every row with non-blank key and value, ignoring the enabled flag. |
| Utils.HeaderRecordKeys | src/lib/utils.ts:70-78 | A key is in the record iff some counting row has that trimmed key. |
| Utils.HeaderRecordLastWins | src/lib/utils.ts:70-78 | A key maps to the trimmed value of the last row that supplies it. |
| Utils.SanitizeIgnoresEnabled | src/lib/utils.ts:70-78 | Changing every row's enabled flag leaves the sanitised record unchanged. |
| Utils.StatusPhraseClasses | src/lib/utils.ts:83-158 | Every tabled code lies in [100, 600). |
| Utils.StatusPhraseNotFallback | src/lib/utils.ts:83-158 | Every tabled phrase is non-empty and differs from `Unknown Status`. |
| Utils.StatusDescription | src/lib/utils.ts:83-159 | A tabled code gets its phrase, and the description is `Unknown Status` iff the code is not tabled. |
| Utils.StatusDescriptionExamples | src/lib/utils.ts:83-159 | 404 is `Not Found` and 418 is `I'm a teapot`; 306 and 0 are `Unknown Status`. |
| Utils.StatusClass | src/lib/utils.ts:164-181 | The class is one of six: below 100, the four hundreds from 1 to 4, and everything from 500 up. |
| Utils.StatusCodeCategory | src/lib/utils.ts:164-181 | The category is the text of the code's status class. |
| Utils.CategoryPartition | src/lib/utils.ts:164-181 | Two codes share a category iff they share a status class. |
| UseApi.RejectionMessage | src/hooks/useApi.ts:25 | An `Error` gives its message; anything else gives `Request failed`. |
| UseApi.FromService | src/hooks/useApi.ts:20-25 | A service failure reaches the hook as an `Error` with the same message. |
| UseApi.ApiHook.constructor | src/hooks/useApi.ts:6-8 | The hook starts with no response, not loading and no error. |
| UseApi.ApiHook.Begin | src/hooks/useApi.ts:16-18 | Starting sets loading and clears both the error and the response. |
| UseApi.ApiHook.Settle | src/hooks/useApi.ts:20-30 | Success stores the response and notifies success. Failure stores the message and notifies it. Loading ends either way. |
| UseApi.ApiHook.SendRequest | src/hooks/useApi.ts:10-31 | The service is called iff the URL is not blank. A blank URL only sets `URL is required`. Otherwise the hook ends settled: not loading, with exactly one of the response and the error set. Each outcome sets its own cell and callback. |
| UseApi.ApiHook.ClearResponse | src/hooks/useApi.ts:33-36 | Both results are cleared and loading is unchanged. |
| UseApi.ApiHook.ClearError | src/hooks/useApi.ts:38-40 | Only the error is cleared. |
| KeyValueTable.AddRow | src/features/api-tester/components/KeyValueTable.tsx:59-61 | The rows are followed by one empty enabled row. |
| KeyValueTable.AddRowKeepsCount | src/features/api-tester/components/KeyValueTable.tsx:307 | Adding a row leaves the enabled count unchanged. |
| KeyValueTable.Apply | src/features/api-tester/components/KeyValueTable.tsx:70 | The edited field takes the new value and the other fields are kept. |
| KeyValueTable.UpdateRow | src/features/api-tester/components/KeyValueTable.tsx:66-73 | A user row index emits the rows with that one row edited. A system-row index emits nothing. |
| KeyValueTable.UpdateOnlyTouchesField | src/features/api-tester/components/KeyValueTable.tsx:66-73 | An update changes only the named field of the named row. |
| KeyValueTable.RemoveAt | src/features/api-tester/components/KeyValueTable.tsx:81 | The rows before the index are kept and the rows after it move up by one. |
| KeyValueTable.RemoveRow | src/features/api-tester/components/KeyValueTable.tsx:78-88 | A system-row index emits nothing. Removing one of several rows drops it, and removing the last row leaves one empty row, so at least one row always remains. |
| KeyValueTable.RemoveKeepsOthers | src/features/api-tester/components/KeyValueTable.tsx:81 | Removal drops exactly one copy of the removed row. |
| KeyValueTable.IsHeaderDefined | src/features/api-tester/components/KeyValueTable.tsx:40-42 | A key is defined iff its lower-cased form is among the rows' lower-cased keys. |
| KeyValueTable.DefinedIgnoresCase | src/features/api-tester/components/KeyValueTable.tsx:40-42 | The letter case of the key asked about does not matter. |
| KeyValueTable.RowDefinesItsKey | src/features/api-tester/components/KeyValueTable.tsx:40-42 | Every row defines its own key. |
| KeyValueTable.ToggleAsWrittenKeepsUndefinedChecked | src/features/api-tester/components/KeyValueTable.tsx:93-98 | As written, toggling a row without a flag writes `true`, so its checked box stays checked. |
| KeyValueTable.ToggleAgreesWhenDefined | src/features/api-tester/components/KeyValueTable.tsx:93-98 | On rows with a defined flag, the written toggle and the corrected one agree. |
| KeyValueTable.Toggled | src/features/api-tester/components/KeyValueTable.tsx:93-98 | The corrected flag is true exactly when the checkbox is shown unchecked. |
| KeyValueTable.ToggleFlipsDisplay | src/features/api-tester/components/KeyValueTable.tsx:93-98 | The corrected toggle flips what the checkbox shows, and toggling twice shows it as before. |
| KeyValueTable.ToggleRow | src/features/api-tester/components/KeyValueTable.tsx:93-98 | As written: a user row gets `!row.enabled` and every other row is unchanged; a system row emits nothing. The checkbox flips for a row with a defined flag and stays checked for a row without one. |
| KeyValueTable.ToggleRowCorrected | src/features/api-tester/components/KeyValueTable.tsx:93-98 | The corrected toggle writes the opposite of what the checkbox shows, so the box flips for every user row; other rows are unchanged. |
| KeyValueTable.Undefined | src/features/api-tester/components/KeyValueTable.tsx:47-49 | A suggestion is kept iff no row has its key in any ASCII letter case. |
| KeyValueTable.UndefinedAppend | src/features/api-tester/components/KeyValueTable.tsx:47-49 | The filter works piecewise over a concatenation, so the suggestions shown keep their listed order. |
| KeyValueTable.FilteredSystemHeaders | src/features/api-tester/components/KeyValueTable.tsx:28-49 | The system headers shown are exactly those whose key no row defines, ignoring case. |
| KeyValueTable.AcceptHiddenByLowercase | src/features/api-tester/components/KeyValueTable.tsx:40-42 | A user `accept` row in any letter case hides the suggested `Accept`. |
| KeyValueTable.NothingDefinedShowsAll | src/features/api-tester/components/KeyValueTable.tsx:47-49 | With no rows every suggestion is shown, in order. |
| KeyValueTable.AddSystemHeader | src/features/api-tester/components/KeyValueTable.tsx:103-105 | The rows are followed by an enabled copy of the suggestion's key and value. |
| KeyValueTable.AdoptedSuggestionHidden | src/features/api-tester/components/KeyValueTable.tsx:103-105 | Once added, a suggestion is no longer suggested. |
| KeyValueTable.EnabledCount | src/features/api-tester/components/KeyValueTable.tsx:307 | The count is at most the row count. It equals it iff every row is enabled with a key, and is zero iff none is. |
| KeyValueTable.EnabledCountAppend | src/features/api-tester/components/KeyValueTable.tsx:307 | The count is additive over concatenation. |
| KeyValueTable.TableView.constructor | src/features/api-tester/components/KeyValueTable.tsx:25 | System headers start hidden. |
| KeyValueTable.TableView.ToggleHidden | src/features/api-tester/components/KeyValueTable.tsx:173 | The eye button flips the view. |
| KeyValueTable.TableView.AllHeaders | src/features/api-tester/components/KeyValueTable.tsx:52-54 | The user rows come first. When the view is shown they are followed by the filtered system headers, and otherwise by nothing. |
| RequestHistory.FilterRequests | src/features/history/components/RequestHistory.tsx:54-57 | An entry is listed iff it is stored and its lower-cased name or URL contains the lower-cased term. |
| RequestHistory.FilterAppend | src/features/history/components/RequestHistory.tsx:54-57 | The search works piecewise, so listed entries keep their stored order. |
| RequestHistory.EmptyTermKeepsAll | src/features/history/components/RequestHistory.tsx:54-57 | An empty search lists every entry, in order. |
| RequestHistory.FilterIgnoresTermCase | src/features/history/components/RequestHistory.tsx:55-56 | The letter case of the term does not matter. |
| RequestHistory.FormatAge | src/features/history/components/RequestHistory.tsx:59-69 | An age under a minute, or in the future, reads `Just now`. Under an hour it is the whole minutes followed by `m ago`, and under a day the whole hours followed by `h ago`. From one day on it is the date text. |
| RequestHistory.AgeMinutes | src/features/history/components/RequestHistory.tsx:61-66 | From one minute to under an hour the text is the whole minutes followed by `m ago`. |
| RequestHistory.AgeHours | src/features/history/components/RequestHistory.tsx:61-67 | From one hour to under a day the text is the whole hours followed by `h ago`. |
| RequestHistory.AgeMinutesDistinct | src/features/history/components/RequestHistory.tsx:61-66 | Ages in different minute buckets under an hour read differently. |
| RequestHistory.HandleSelectRequest | src/features/history/components/RequestHistory.tsx:49-52 | The selected id, request and response, together with the entry's name and time, rebuild the entry. |
| ApiTester.InitialHeaders | src/features/api-tester/components/ApiTester.tsx:35-39 | A request's own rows are used when it has any; otherwise there is one empty row. The result is never empty. |
| ApiTester.OrEmpty | src/features/api-tester/components/ApiTester.tsx:41 | An absent body becomes the empty text. |
| ApiTester.Form.constructor | src/features/api-tester/components/ApiTester.tsx:33-48 | The method is the request's, or `GET` when it is empty or absent. The URL and body are the request's or empty, with the rows from `InitialHeaders`. Nothing is saved, and a fresh hook starts in its initial state. This is the state before the `[initialRequest]` effect runs; `ApiTester.Mount` gives the state after it. |
| ApiTester.Mount | src/features/api-tester/components/ApiTester.tsx:33-58 | After mounting, the effect has loaded a given request once more. The method is then the request's own, empty or not, with no `GET` default. Without a request the form is empty, with `GET`. |
| ApiTester.Form.Config | src/features/api-tester/components/ApiTester.tsx:85-90 | The form's request has its method, URL, rows and body, and no session id. |
| ApiTester.Form.LoadRequest | src/features/api-tester/components/ApiTester.tsx:51-58 | Loading a request replaces the method, URL, rows and body, and leaves `saved` alone. |
| ApiTester.CorrectedNotBlank | src/features/api-tester/components/ApiTester.tsx:61-74 | A non-blank URL stays non-blank after correction, so the hook never rejects it. |
| ApiTester.Form.HandleSendRequest | src/features/api-tester/components/ApiTester.tsx:60-82 | A blank URL changes nothing and sends nothing. Otherwise the form's URL becomes its `https://` correction when one applies. The request sent carries the form's method, rows and body, `saved` is cleared, and the hook ends settled with the outcome's response or message. |
| ApiTester.Form.HandleSaveRequest | src/features/api-tester/components/ApiTester.tsx:84-98 | The store receives the form's request, with the URL as typed, and the current response under the generated name. The form is marked saved. |
| ApiTester.Window | src/features/api-tester/components/ApiTester.tsx:151 | The look-ahead is at most eight characters and is a prefix of the rest of the text. |
| ApiTester.UrlAheadIff | src/features/api-tester/components/ApiTester.tsx:151-152 | The eight-character look-ahead decides exactly what the whole rest of the text would. |
| ApiTester.RenderJsonWithLinks | src/features/api-tester/components/ApiTester.tsx:135-174 | The loop's output is `RenderLinks` of its input. |
| ApiTester.NoLinkKeepsText | src/features/api-tester/components/ApiTester.tsx:140-174 | A text where no quote opens a URL comes out unchanged. |
| ApiTester.CopiedFrom | src/features/api-tester/components/ApiTester.tsx:140-174 | Outside a link run, a tail where no quote opens a URL is copied through. |
| ApiTester.PlainStretch | src/features/api-tester/components/ApiTester.tsx:171-173 | Outside a link run, characters up to the next quote are copied. |
| ApiTester.CollectStretch | src/features/api-tester/components/ApiTester.tsx:168-170 | Inside a link run, characters up to the next quote are collected and nothing is emitted. |
| ApiTester.QuotedLink | src/features/api-tester/components/ApiTester.tsx:144-167 | A quoted run starting with `http://` or `https:/` comes out as its quote, a link around the run and its closing quote. |
| ApiTester.UnclosedLinkDropped | src/features/api-tester/components/ApiTester.tsx:140-174 | A link run the text never closes is lost: only its opening quote is emitted. |
| ApiTester.LinkBetween | src/features/api-tester/components/ApiTester.tsx:140-174 | A text whose only quotes surround a URL renders as the prefix, the link in quotes and the suffix. |
| ApiTester.OneLink | src/features/api-tester/components/ApiTester.tsx:140-174 | `a"u"b`, where `u` starts with `http://` or `https:/` and nothing else has quotes, renders as `a"` + link(u) + `"b`. |
| ApiTester.SecondPiece | src/features/api-tester/components/ApiTester.tsx:308 | `split(sep)[1]` is absent iff the separator does not occur. Otherwise it is the text after the first occurrence, up to the next occurrence or the end, and it does not contain the separator. |
| ApiTester.SecondPieceIsRest | src/features/api-tester/components/ApiTester.tsx:308 | When the separator occurs exactly once, the second piece is everything after it. |
| ApiTester.ErrorDisplay | src/features/api-tester/components/ApiTester.tsx:300-334 | The missing-protocol panel is shown iff the error contains `Invalid URL format: no protocol`, and its suggestion is `SecondPiece` of the error at `no protocol: `. Otherwise the CORS panel iff it contains `CORS Error`, then the network panel iff it contains `Network Error`. The generic panel shows the error with its first `Backend error:` removed. |
| ApiTester.ShownPanel | src/features/api-tester/components/ApiTester.tsx:290-334 | A panel is shown iff there is an error and it is non-empty, and it is `ErrorDisplay` of that error. |
| ApiTester.MissingProtocolAnswerPanel | src/features/api-tester/components/ApiTester.tsx:300-309 | The classifier's missing-protocol answer gets the missing-protocol panel. Its suggestion after `https://` is exactly the quoted URL when that URL does not itself contain `no protocol: `. |
| ApiTester.CorsAnswersPanel | src/features/api-tester/components/ApiTester.tsx:312 | Both CORS answers of the classifier get the CORS panel. |
| ApiTester.NetworkAnswerPanel | src/features/api-tester/components/ApiTester.tsx:321 | The network answer gets the network panel. |
| ApiTester.BackendAnswerPanel | src/features/api-tester/components/ApiTester.tsx:330-333 | A backend error whose text names none of the three panel marks falls to the generic panel, which removes `Backend error:` but keeps the space after it. |
| ApiTester.HeaderBadge | src/features/api-tester/components/ApiTester.tsx:369-371 | The badge shows iff some row is enabled with a non-blank key, and its number is the enabled count. |
| ApiTester.BadgeIgnoresNewRow | src/features/api-tester/components/ApiTester.tsx:369-371 | Adding an empty row does not change the badge. |

## Left out

- The network calls. `fetch` and the reading of its response are not modelled; their outcomes (`DirectOutcome`, `ProxyOutcome`, `BodyRead`) are inputs.
- URL parsing. The WHATWG `URL` constructor is the parameter `UrlParser`, and `window.location.origin` is a parameter.
- Fresh values. `crypto.randomUUID`, `generateId` and `Date.now()` / `performance.now()` are parameters, because they are nondeterministic.
- Serialisation. `JSON.stringify`/`JSON.parse` of the stored list and of bodies are abstracted: the entry is a `Blob`, and a body is a string. A `Date` round trip through JSON is not modelled.
- Utils.FormatBytes: the floating-point value and its one-decimal rendering are kept symbolic (`ShortDecimal`), because floating point is out of scope. The zero case, the divisor and the unit name are stated exactly.
- Types.JsonValue: JSON numbers are integers only (`JNumber(n: int)`), so a fractional number cannot be represented. `Types.Truthy` and `ApiService.ReplyData` see only whether a number is zero, so these functions lose nothing by it.
- Utils.FormatTime: the seconds branch (`toFixed(1)`) is kept symbolic (`FixedDecimal`), for the same reason.
- The size of a response (`new Blob([...]).size`) is an input.
- RequestHistory.FormatAge: `toLocaleDateString` is the parameter `dateText`.
- Strings.ToLower: `toLowerCase` is modelled on ASCII letters only. Unicode case mapping is not modelled.
- The regular-expression syntax highlighting applied after the link scan (ApiTester.tsx:177-180), and the `try`/`catch` around the scan, are presentation with no logic to prove. So is `renderTextWithLinks`.
- Presentation. Colour and class choosers other than `getStatusColor`, `cn`, and the JSX layout are not modelled.
- Reset timers. The two-second reset of `saved` and `copied` (`setTimeout`) is not modelled; it is timing only.
- `copyResponseToClipboard` needs the clipboard, so it is left out.
- In the history component, the `storage` event listener, `window.confirm` and the delete/clear handlers are left out. They call the store operations, which are modelled.
- Row indices are natural numbers: the table only passes positions of rendered rows, so a negative index, which the JavaScript comparison would let through, is not modelled.
- The `params` table of the editor is state that no modelled operation reads.
- `parseResponseTime` is a single subtraction that the modelled code does not use.
- `isValidUrl` with the parser: only whether `new URL` throws matters, and that is the parser's answer.
- Concurrency. React's batching of state updates and overlapping requests are not modelled. Each hook transition is one atomic step, with `sendRequest` split at its `await`.
- SessionStorage.SessionStorageService.SaveRequest: only the write (`setItem`) can fail here. The other operations' writes are assumed to succeed.
- ApiService.GetErrorMessage: the error's `message` is assumed to be a string. The member's own contract states only the null case; the full rule order is stated by ApiService.ClassifierIsFirstMatch.
- UseApi.ApiHook.SendRequest: the `onSuccess`/`onError` callbacks are modelled as the returned `Notice`, not as calls.

## Findings

| source | as written | input that shows it | evidently intended | confidence | as-written member | corrected member |
|---|---|---|---|---|---|---|
| src/features/api-tester/components/KeyValueTable.tsx:93-98 | `toggleRow` writes `!row.enabled`, while the checkbox shows `row.enabled !== false` (line 238). | A row whose `enabled` is `undefined` (headers loaded from a saved request or added elsewhere without the flag). It shows checked, the toggle writes `true`, and it stays checked. | A toggle writes the opposite of what the checkbox shows: `enabled === false`. | medium, not executed | KeyValueTable.ToggleAsWrittenKeepsUndefinedChecked | KeyValueTable.ToggleRowCorrected |

`KeyValueTable.ToggleRow` models the handler as written (`KeyValueTable.ToggledAsWritten`); `KeyValueTable.ToggleRowCorrected` writes the corrected flag `KeyValueTable.Toggled`, whose display always flips (`KeyValueTable.ToggleFlipsDisplay`). The two agree on every row with a defined flag (`KeyValueTable.ToggleAgreesWhenDefined`).

Three behaviours of the code are modelled as written rather than reported, because they look intended or harmless:
- On the proxy path the error classifier runs twice, so the long CORS text becomes the short one (`ApiService.ProxyCorsShortened`).
- The generic error panel keeps the space after `Backend error:` (`ApiTester.BackendAnswerPanel`).
- A quoted URL the text never closes is lost from the rendered output (`ApiTester.UnclosedLinkDropped`).
