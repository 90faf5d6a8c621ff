/**
 * The saved-request list: the case-insensitive search over name and URL,
 * the relative age shown under each entry, and what selecting an entry
 * hands to the editor.
 */
module RequestHistory {
  import opened Wrappers
  import opened Strings
  import opened Types
  import opened SessionStorage

  /** An entry is listed when its lower-cased name or URL contains the lower-cased search term. */
  predicate Matches(req: SavedRequest, term: string) {
    Contains(ToLower(req.name), ToLower(term)) || Contains(ToLower(req.request.url), ToLower(term))
  }

  /** `filteredRequests`: the matching entries. */
  function FilterRequests(requests: seq<SavedRequest>, term: string): (r: seq<SavedRequest>)
    ensures |r| <= |requests|
    ensures forall x :: x in r <==> x in requests && Matches(x, term)
    decreases |requests|
  {
    if requests == [] then []
    else
      var rest := FilterRequests(requests[1..], term);
      assert forall x :: x in requests <==> x == requests[0] || x in requests[1..];
      if Matches(requests[0], term) then [requests[0]] + rest else rest
  }

  /** The search works piecewise, so the listed entries keep their stored order. */
  lemma {:induction false} FilterAppend(a: seq<SavedRequest>, b: seq<SavedRequest>, term: string)
    ensures FilterRequests(a + b, term) == FilterRequests(a, term) + FilterRequests(b, term)
    decreases |a|
  {
    if a == [] {
      assert a + b == b;
    } else {
      assert (a + b)[0] == a[0];
      assert (a + b)[1..] == a[1..] + b;
      FilterAppend(a[1..], b, term);
    }
  }

  /** An empty search lists every entry, in order. */
  lemma {:induction false} EmptyTermKeepsAll(requests: seq<SavedRequest>)
    ensures FilterRequests(requests, "") == requests
    decreases |requests|
  {
    if requests != [] {
      ContainsEmpty(ToLower(requests[0].name));
      EmptyTermKeepsAll(requests[1..]);
    }
  }

  /** The letter case of the search term does not matter. */
  lemma {:induction false} FilterIgnoresTermCase(requests: seq<SavedRequest>, term: string)
    ensures FilterRequests(requests, ToLower(term)) == FilterRequests(requests, term)
    decreases |requests|
  {
    ToLowerIdempotent(term);
    if requests != [] {
      FilterIgnoresTermCase(requests[1..], term);
    }
  }

  const JustNow := "Just now"
  const MinuteMs := 60000

  /** Whole hours computed from whole minutes are the whole hours of the age. */
  lemma HoursOfMinutes(diff: int)
    requires diff >= 0
    ensures (diff / MinuteMs) / 60 == diff / 3600000
  {
    var q, rest := diff / 3600000, diff % 3600000;
    assert diff == 3600000 * q + rest && 0 <= rest < 3600000;
    assert diff / MinuteMs == 60 * q + rest / MinuteMs;
  }

  /**
   * `formatTime(date)` for an age of `diff` milliseconds: floored whole
   * minutes and hours; `dateText` stands for the date's locale rendering.
   * Under a minute, and for a timestamp in the future, the age reads
   * "Just now"; then whole minutes up to an hour, whole hours up to a day,
   * and the date itself from one day on.
   */
  function FormatAge(diff: int, dateText: string): (r: string)
    ensures diff < 60000 ==> r == JustNow
    ensures 60000 <= diff < 3600000 ==> r == NatToString(diff / 60000) + "m ago"
    ensures 3600000 <= diff < 86400000 ==> r == NatToString(diff / 3600000) + "h ago"
    ensures diff >= 86400000 ==> r == dateText
  {
    var minutes := diff / MinuteMs;
    var hours := minutes / 60;
    if minutes < 1 then JustNow
    else if minutes < 60 then NatToString(minutes) + "m ago"
    else
      HoursOfMinutes(diff);
      if hours < 24 then NatToString(hours) + "h ago"
      else dateText
  }

  /** From one minute to under an hour: the whole minutes elapsed. */
  lemma AgeMinutes(diff: int, m: nat, dateText: string)
    requires 1 <= m < 60 && m * 60000 <= diff < (m + 1) * 60000
    ensures FormatAge(diff, dateText) == NatToString(m) + "m ago"
  {
    assert diff / MinuteMs == m;
  }

  /** From one hour to under a day: the whole hours elapsed. */
  lemma AgeHours(diff: int, h: nat, dateText: string)
    requires 1 <= h < 24 && h * 3600000 <= diff < (h + 1) * 3600000
    ensures FormatAge(diff, dateText) == NatToString(h) + "h ago"
  {
    var m := diff / MinuteMs;
    assert h * 60 <= m < (h + 1) * 60;
    assert m / 60 == h;
  }

  /** Ages in different minute buckets under an hour read differently. */
  lemma AgeMinutesDistinct(d1: int, d2: int, dateText: string)
    requires 60000 <= d1 < 3600000 && 60000 <= d2 < 3600000
    requires d1 / 60000 != d2 / 60000
    ensures FormatAge(d1, dateText) != FormatAge(d2, dateText)
  {
    var m1, m2 := d1 / MinuteMs, d2 / MinuteMs;
    var t1, t2 := NatToString(m1), NatToString(m2);
    if t1 + "m ago" == t2 + "m ago" {
      assert t1 == (t1 + "m ago")[..|t1|];
      assert |t1| == |t2|;
      assert t1 == t2 by {
        assert t2 == (t2 + "m ago")[..|t2|];
      }
      NatToStringInjective(m1, m2);
    }
  }

  /** What `handleSelectRequest` hands out: the selected id, and the stored request and response for `onLoadRequest`. */
  datatype Selection = Selection(selectedId: string, request: RequestConfig, response: Option<ApiResponse>)

  /** `handleSelectRequest(request)`. */
  function HandleSelectRequest(req: SavedRequest): (s: Selection)
    ensures SavedRequest(s.selectedId, req.name, s.request, s.response, req.timestamp) == req
  {
    Selection(req.id, req.request, req.response)
  }
}
