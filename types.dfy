/**
 * The value shapes shared by the services and components: a header or
 * parameter row, the request configuration, the response, a parsed JSON
 * value and the outcome of parsing a URL.
 */
module Types {
  import opened Wrappers
  import opened Strings

  /**
   * `KeyValuePair` / `RequestHeader`: one table row. `enabled` is optional;
   * an absent flag counts as enabled wherever the code tests `enabled !== false`.
   */
  datatype Header = Header(key: string, value: string, enabled: Option<bool>)

  /** `row.enabled !== false`. */
  predicate NotDisabled(h: Header) {
    h.enabled != Some(false)
  }

  /** The row shown as enabled with a non-blank key: `row.enabled !== false && row.key.trim()`. */
  predicate Active(h: Header) {
    NotDisabled(h) && !Blank(h.key)
  }

  /** A JSON value; numbers are restricted to integers. */
  datatype JsonValue =
    | JNull
    | JBool(b: bool)
    | JNumber(n: int)
    | JString(s: string)
    | JArray(items: seq<JsonValue>)
    | JObject(fields: map<string, JsonValue>)

  /** JavaScript truthiness of a possibly `undefined` JSON value. */
  predicate Truthy(v: Option<JsonValue>) {
    match v
    case None => false
    case Some(JNull) => false
    case Some(JBool(b)) => b
    case Some(JNumber(n)) => n != 0
    case Some(JString(s)) => s != ""
    case Some(_) => true
  }

  /** Truthiness of an optional string: present and non-empty. */
  predicate Given(s: Option<string>) {
    s.Some? && s.value != ""
  }

  /** `RequestConfig`. */
  datatype RequestConfig = RequestConfig(
    httpMethod: string,
    url: string,
    headers: Option<seq<Header>>,
    body: Option<string>,
    sessionId: Option<string>)

  /**
   * A rendered number. `ShortDecimal(n, d, u)` is `parseFloat((n / d).toFixed(1)) + u`
   * and `FixedDecimal(n, d, u)` is `(n / d).toFixed(1) + u`; the decimal digits
   * themselves come from floating-point arithmetic and are not modelled.
   */
  datatype Rendered =
    | Text(s: string)
    | ShortDecimal(numerator: int, denominator: nat, suffix: string)
    | FixedDecimal(numerator: int, denominator: nat, suffix: string)

  /** `ApiResponse`; `time` is measured outside the model and `size` is the rendered byte size. */
  datatype ApiResponse = ApiResponse(
    status: int,
    statusText: string,
    headers: map<string, string>,
    data: Option<JsonValue>,
    time: int,
    size: Rendered)

  /** The parts of a `URL` object the code reads. */
  datatype ParsedUrl = ParsedUrl(origin: string, hostname: string, pathname: string)

  /** `new URL(s)`: the parsed URL, or `None` where the constructor throws. */
  type UrlParser = string -> Option<ParsedUrl>

  /** A value of `crypto.randomUUID()`: 36 characters, in particular never empty. */
  type Uuid = s: string | |s| == 36 witness "00000000-0000-0000-0000-000000000000"
}
