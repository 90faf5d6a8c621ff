/**
 * The saved-request store: one session-storage entry holding the list of
 * saved requests, newest first. Serialisation is abstracted: the entry is
 * either absent, a list, or something that does not parse as one.
 */
module SessionStorage {
  import opened Wrappers
  import opened Strings
  import opened Types

  /** `SavedRequest`; `timestamp` is the clock reading in milliseconds. */
  datatype SavedRequest = SavedRequest(
    id: string,
    name: string,
    request: RequestConfig,
    response: Option<ApiResponse>,
    timestamp: int)

  /** The stored value under the storage key: a list, or text that does not parse as one. */
  datatype Blob = Requests(list: seq<SavedRequest>) | Unparsable

  /**
   * `Partial<SavedRequest>`: each field is either left alone (`None`) or
   * replaced. `response` may be replaced by `undefined`, hence the nesting.
   */
  datatype SavedRequestUpdate = SavedRequestUpdate(
    id: Option<string>,
    name: Option<string>,
    request: Option<RequestConfig>,
    response: Option<Option<ApiResponse>>,
    timestamp: Option<int>)

  /** `{ ...r, ...u }`. */
  function Overlay(r: SavedRequest, u: SavedRequestUpdate): (o: SavedRequest)
    ensures o.id == u.id.GetOr(r.id) && o.name == u.name.GetOr(r.name)
    ensures o.request == u.request.GetOr(r.request) && o.response == u.response.GetOr(r.response)
    ensures o.timestamp == u.timestamp.GetOr(r.timestamp)
  {
    SavedRequest(u.id.GetOr(r.id), u.name.GetOr(r.name), u.request.GetOr(r.request),
                 u.response.GetOr(r.response), u.timestamp.GetOr(r.timestamp))
  }

  /** An update that replaces nothing leaves the entry as it was. */
  lemma OverlayEmpty(r: SavedRequest)
    ensures Overlay(r, SavedRequestUpdate(None, None, None, None, None)) == r
  {
  }

  /** `requests.findIndex(req => req.id === id)`, with `None` for -1. */
  function FindIndex(rs: seq<SavedRequest>, id: string): (r: Option<nat>)
    ensures r.Some? ==> r.value < |rs| && rs[r.value].id == id
    ensures r.Some? ==> forall j :: 0 <= j < r.value ==> rs[j].id != id
    ensures r.None? ==> forall j :: 0 <= j < |rs| ==> rs[j].id != id
    decreases |rs|
  {
    if rs == [] then None
    else if rs[0].id == id then Some(0)
    else
      match FindIndex(rs[1..], id)
      case None => None
      case Some(k) => Some(k + 1)
  }

  /** `requests.filter(req => req.id !== id)`. */
  function Without(rs: seq<SavedRequest>, id: string): (r: seq<SavedRequest>)
    ensures |r| <= |rs|
    decreases |rs|
  {
    if rs == [] then []
    else if rs[0].id == id then Without(rs[1..], id)
    else [rs[0]] + Without(rs[1..], id)
  }

  /** Filtering keeps exactly the entries with another id. */
  lemma {:induction false} WithoutMembers(rs: seq<SavedRequest>, id: string, x: SavedRequest)
    ensures x in Without(rs, id) <==> x in rs && x.id != id
    decreases |rs|
  {
    if rs != [] {
      WithoutMembers(rs[1..], id, x);
      assert rs == [rs[0]] + rs[1..];
    }
  }

  /** Filtering works piecewise, so the kept entries keep their relative order. */
  lemma {:induction false} WithoutAppend(a: seq<SavedRequest>, b: seq<SavedRequest>, id: string)
    ensures Without(a + b, id) == Without(a, id) + Without(b, id)
    decreases |a|
  {
    if a == [] {
      assert a + b == b;
    } else {
      assert (a + b)[0] == a[0];
      assert (a + b)[1..] == a[1..] + b;
      WithoutAppend(a[1..], b, id);
    }
  }

  /** Filtering twice is filtering once. */
  lemma {:induction false} WithoutIdempotent(rs: seq<SavedRequest>, id: string)
    ensures Without(Without(rs, id), id) == Without(rs, id)
    decreases |rs|
  {
    if rs != [] {
      WithoutIdempotent(rs[1..], id);
      if rs[0].id != id {
        assert ([rs[0]] + Without(rs[1..], id))[1..] == Without(rs[1..], id);
      }
    }
  }

  /** `pathname.split('/').filter(Boolean)`: the non-empty segments. */
  function Segments(parts: seq<string>): (r: seq<string>)
    ensures forall i :: 0 <= i < |r| ==> r[i] != ""
    decreases |parts|
  {
    if parts == [] then []
    else if parts[0] == "" then Segments(parts[1..])
    else [parts[0]] + Segments(parts[1..])
  }

  lemma {:induction false} SegmentsAppend(a: seq<string>, b: seq<string>)
    ensures Segments(a + b) == Segments(a) + Segments(b)
    decreases |a|
  {
    if a == [] {
      assert a + b == b;
    } else {
      assert (a + b)[0] == a[0];
      assert (a + b)[1..] == a[1..] + b;
      SegmentsAppend(a[1..], b);
    }
  }

  /** Each segment kept comes from the split and therefore holds no `/`. */
  lemma {:induction false} SegmentsFrom(parts: seq<string>, i: nat)
    requires i < |Segments(parts)|
    ensures Segments(parts)[i] in parts
    decreases |parts|
  {
    if parts[0] == "" {
      SegmentsFrom(parts[1..], i);
    } else if i > 0 {
      SegmentsFrom(parts[1..], i - 1);
    }
  }

  /** No piece of a split holds the separator. */
  lemma {:induction false} SplitPartsLackSeparator(s: string, sep: char, part: string)
    requires part in Split(s, sep)
    ensures sep !in part
    decreases |s|
  {
    if s != [] {
      var rest := Split(s[1..], sep);
      if s[0] == sep {
        if part != "" {
          SplitPartsLackSeparator(s[1..], sep, part);
        }
      } else if part == [s[0]] + rest[0] {
        SplitPartsLackSeparator(s[1..], sep, rest[0]);
      } else {
        assert part in rest[1..];
        SplitPartsLackSeparator(s[1..], sep, part);
      }
    }
  }

  const FallbackName := "API Request"

  /** The name built from a parsed URL: host without its first `www.`, then the last path segment. */
  function NameFor(u: ParsedUrl): (r: string)
    ensures var host := ReplaceFirst(u.hostname, "www.", "");
      var segs := Segments(Split(u.pathname, '/'));
      r == if segs == [] then host else host + " - " + segs[|segs| - 1]
  {
    var hostname := ReplaceFirst(u.hostname, "www.", "");
    if u.pathname != "" && u.pathname != "/" then
      var pathParts := Segments(Split(u.pathname, '/'));
      if |pathParts| > 0 then hostname + " - " + pathParts[|pathParts| - 1]
      else hostname
    else
      if u.pathname == "/" then
        SlashesHaveNoSegments(1);
        assert seq(1, _ => '/') == "/";
        hostname
      else
        hostname
  }

  /** `generateRequestName(request)`. */
  function GenerateRequestName(request: RequestConfig, parse: UrlParser): (r: string)
    ensures parse(request.url).None? ==> r == FallbackName
    ensures parse(request.url).Some? ==> r == NameFor(parse(request.url).value)
  {
    match parse(request.url)
    case None => FallbackName
    case Some(u) => NameFor(u)
  }

  /** A trailing slash on the path does not change the name. */
  lemma NameIgnoresTrailingSlash(u: ParsedUrl)
    ensures NameFor(u.(pathname := u.pathname + "/")) == NameFor(u)
  {
    SplitAround(u.pathname, '/', "");
    assert u.pathname + "/" == u.pathname + ['/'] + "";
    SegmentsAppend(Split(u.pathname, '/'), Split("", '/'));
  }

  /** The segment a name ends with is non-empty and holds no `/`. */
  lemma NameSegmentIsLast(u: ParsedUrl)
    requires Segments(Split(u.pathname, '/')) != []
    ensures var segs := Segments(Split(u.pathname, '/')); var last := segs[|segs| - 1];
      NameFor(u) == ReplaceFirst(u.hostname, "www.", "") + " - " + last && last != "" && '/' !in last
  {
    var segs := Segments(Split(u.pathname, '/'));
    SegmentsFrom(Split(u.pathname, '/'), |segs| - 1);
    SplitPartsLackSeparator(u.pathname, '/', segs[|segs| - 1]);
  }

  /** A path of slashes only names the host alone. */
  lemma NameOfRootPath(u: ParsedUrl, n: nat)
    requires u.pathname == seq(n, _ => '/')
    ensures NameFor(u) == ReplaceFirst(u.hostname, "www.", "")
  {
    SlashesHaveNoSegments(n);
  }

  lemma {:induction false} SlashesHaveNoSegments(n: nat)
    ensures Segments(Split(seq(n, _ => '/'), '/')) == []
    decreases n
  {
    var s := seq(n, _ => '/');
    if n > 0 {
      SlashesHaveNoSegments(n - 1);
      assert s[1..] == seq(n - 1, _ => '/');
    }
  }

  /** `www.` is dropped from the front of the host. */
  lemma WwwDropped(rest: string, u: ParsedUrl)
    requires u.hostname == "www." + rest && u.pathname == "/"
    ensures NameFor(u) == rest
  {
    ReplaceFirstAtStart("www.", rest);
  }

  /**
   * A host `www.h` with path `/a/b` is saved as `h - b` (so
   * `https://www.example.com/api/users` gives `example.com - users`).
   */
  lemma NameOfTwoSegmentPath(origin: string, h: string, a: string, b: string)
    requires a != "" && b != "" && '/' !in a && '/' !in b
    ensures NameFor(ParsedUrl(origin, "www." + h, "/" + a + "/" + b)) == h + " - " + b
  {
    ReplaceFirstAtStart("www.", h);
    TwoSegmentsOf(a, b);
  }

  /** The segments of `/a/b` are `a` and `b`. */
  lemma TwoSegmentsOf(a: string, b: string)
    requires a != "" && b != "" && '/' !in a && '/' !in b
    ensures Segments(Split("/" + a + "/" + b, '/')) == [a, b]
  {
    TwoSegmentSplit(a, b);
    SegmentsAppend([""] + [a], [b]);
    SegmentsAppend([""], [a]);
  }

  /** Splitting `/a/b` at its slashes. */
  lemma TwoSegmentSplit(a: string, b: string)
    requires '/' !in a && '/' !in b
    ensures Split("/" + a + "/" + b, '/') == [""] + [a] + [b]
  {
    assert "/" + a + "/" + b == "" + ['/'] + (a + ['/'] + b);
    SplitAround("", '/', a + ['/'] + b);
    SplitAround(a, '/', b);
    SplitNoSeparator(a, '/');
    SplitNoSeparator(b, '/');
  }

  /** The blob the methods read: a parsed list, and the empty list for anything else. */
  function ReadList(item: Option<Blob>): (r: seq<SavedRequest>)
    ensures item.None? || item == Some(Unparsable) ==> r == []
    ensures item.Some? && item.value.Requests? ==> r == item.value.list
  {
    match item
    case Some(Requests(list)) => list
    case _ => []
  }

  /** `SessionStorageService`, over the one storage entry it owns. */
  class SessionStorageService {
    /** What `sessionStorage` holds under the storage key; `None` when nothing is stored. */
    var item: Option<Blob>

    constructor(stored: Option<Blob>)
      ensures item == stored
    {
      item := stored;
    }

    /** `getSavedRequests()`. */
    function GetSavedRequests(): (r: seq<SavedRequest>)
      reads this
      ensures r == ReadList(item)
    {
      ReadList(item)
    }

    /**
     * `saveRequest(request, response?, name?)`. The new entry goes in front of
     * the list. `id` and `now` are the fresh id and the clock reading;
     * `writeOk` false is a `setItem` that throws, which is caught and leaves
     * the store as it was.
     */
    method SaveRequest(request: RequestConfig, response: Option<ApiResponse>, name: Option<string>,
                       parse: UrlParser, id: Uuid, now: int, writeOk: bool)
      returns (saved: SavedRequest)
      modifies this
      ensures saved.id == id && saved.request == request && saved.response == response && saved.timestamp == now
      ensures Given(name) ==> saved.name == name.value
      ensures !Given(name) ==> saved.name == GenerateRequestName(request, parse)
      ensures writeOk ==> item == Some(Requests([saved] + old(GetSavedRequests())))
      ensures !writeOk ==> item == old(item)
    {
      var entryName := if Given(name) then name.value else GenerateRequestName(request, parse);
      saved := SavedRequest(id, entryName, request, response, now);
      var existing := GetSavedRequests();
      var updated := [saved] + existing;
      if writeOk {
        item := Some(Requests(updated));
      }
    }

    /** `updateRequest(id, updates)`: overlay the first entry with that id; write nothing when there is none. */
    method UpdateRequest(id: string, updates: SavedRequestUpdate)
      modifies this
      ensures FindIndex(old(GetSavedRequests()), id).None? ==> item == old(item)
      ensures FindIndex(old(GetSavedRequests()), id).Some? ==>
        var rs := old(GetSavedRequests()); var i := FindIndex(rs, id).value;
        item == Some(Requests(rs[i := Overlay(rs[i], updates)]))
    {
      var requests := GetSavedRequests();
      var index := FindIndex(requests, id);
      if index.Some? {
        requests := requests[index.value := Overlay(requests[index.value], updates)];
        item := Some(Requests(requests));
      }
    }

    /** `deleteRequest(id)`: always writes back the entries with another id. */
    method DeleteRequest(id: string)
      modifies this
      ensures item == Some(Requests(Without(old(GetSavedRequests()), id)))
    {
      var requests := GetSavedRequests();
      var filtered := Without(requests, id);
      item := Some(Requests(filtered));
    }

    /** `clearAllRequests()`: removes the entry. */
    method ClearAllRequests()
      modifies this
      ensures item == None
      ensures GetSavedRequests() == []
    {
      item := None;
    }

    /** `getRequestById(id)`: the first entry with that id. */
    function GetRequestById(id: string): (r: Option<SavedRequest>)
      reads this
      ensures r.Some? ==> r.value in GetSavedRequests() && r.value.id == id
      ensures r.None? ==> forall x :: x in GetSavedRequests() ==> x.id != id
      ensures r.Some? ==> var i := FindIndex(GetSavedRequests(), id).value;
        r.value == GetSavedRequests()[i] && forall j :: 0 <= j < i ==> GetSavedRequests()[j].id != id
    {
      var rs := GetSavedRequests();
      match FindIndex(rs, id)
      case None => None
      case Some(i) => Some(rs[i])
    }
  }

  /** An update touches only the first entry with its id; every other position is unchanged. */
  lemma UpdateTouchesOnlyFirst(rs: seq<SavedRequest>, id: string, u: SavedRequestUpdate, j: nat)
    requires FindIndex(rs, id).Some? && j < |rs| && j != FindIndex(rs, id).value
    ensures var i := FindIndex(rs, id).value; rs[i := Overlay(rs[i], u)][j] == rs[j]
  {
  }

  /** A later entry with the same id is not the one updated. */
  lemma UpdateSkipsDuplicates(rs: seq<SavedRequest>, id: string, j: nat)
    requires j < |rs| && rs[j].id == id
    ensures FindIndex(rs, id).Some? && FindIndex(rs, id).value <= j
  {
  }

  /** Deleting then reading leaves no entry with that id, and keeps every other one. */
  lemma DeleteThenRead(s: SessionStorageService, rs: seq<SavedRequest>, id: string, x: SavedRequest)
    requires s.item == Some(Requests(Without(rs, id)))
    ensures x in s.GetSavedRequests() <==> x in rs && x.id != id
  {
    WithoutMembers(rs, id, x);
  }

  /** The entry just saved heads the list, so looking up its id finds it. */
  lemma SavedIsFound(s: SessionStorageService, saved: SavedRequest, before: seq<SavedRequest>)
    requires s.item == Some(Requests([saved] + before))
    ensures s.GetRequestById(saved.id) == Some(saved)
  {
  }
}
