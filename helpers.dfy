/** The pure helpers of the backend (backend/utils/helpers.js): percentage
    arithmetic, the session-time label, the e-mail shape check, pagination
    arithmetic and object cleaning. */
module Helpers {
  import opened JsValues
  import opened JsStrings
  import opened Aggregation

  /** `calculatePercentageChange`: the relative change from `previous` to
      `current` in percent; from 0 it is 100 for growth and 0 otherwise. */
  function CalculatePercentageChange(current: real, previous: real): (r: real)
    ensures previous == 0.0 ==> r == (if current > 0.0 then 100.0 else 0.0)
    ensures previous != 0.0 ==> previous + previous * r / 100.0 == current
  {
    if previous == 0.0 then (if current > 0.0 then 100.0 else 0.0)
    else ((current - previous) / previous) * 100.0
  }

  /** Growth gives a positive change and decline a negative one, whatever the
      sign of the base. */
  lemma PercentageChangeSign(current: real, previous: real)
    requires previous > 0.0
    ensures CalculatePercentageChange(current, previous) > 0.0 <==> current > previous
    ensures CalculatePercentageChange(current, previous) == 0.0 <==> current == previous
  {
    var r := CalculatePercentageChange(current, previous);
    assert previous * r == (current - previous) * 100.0;
    if r > 0.0 {
      assert previous * r > 0.0;
    } else if r < 0.0 {
      assert previous * r < 0.0;
    }
  }

  /** `calculateBounceRate`: bounced sessions as a percentage of all sessions. */
  function CalculateBounceRate(totalSessions: real, bounceSessions: real): (r: real)
    ensures totalSessions == 0.0 ==> r == 0.0
    ensures totalSessions != 0.0 ==> r * totalSessions == bounceSessions * 100.0
  {
    if totalSessions == 0.0 then 0.0 else (bounceSessions / totalSessions) * 100.0
  }

  /** No more bounces than sessions gives a rate between 0 and 100. */
  lemma BounceRateBounded(totalSessions: real, bounceSessions: real)
    requires 0.0 <= bounceSessions <= totalSessions
    ensures 0.0 <= CalculateBounceRate(totalSessions, bounceSessions) <= 100.0
  {
    var r := CalculateBounceRate(totalSessions, bounceSessions);
    if totalSessions != 0.0 {
      assert r * totalSessions <= 100.0 * totalSessions;
      assert r * totalSessions >= 0.0;
    }
  }

  /** `Math.trunc`. */
  function Trunc(r: real): int {
    if r >= 0.0 then r.Floor else -((-r).Floor)
  }

  /** The `%` operator on numbers: the remainder takes the dividend's sign. */
  function JsRemainder(a: real, b: real): real
    requires b != 0.0
  {
    a - b * Trunc(a / b) as real
  }

  /** Whole minutes and seconds of an average session length in seconds. */
  function SessionParts(avgSeconds: real): (ms: (int, int))
    ensures avgSeconds >= 0.0 ==> 0 <= ms.1 < 60
    ensures avgSeconds >= 0.0 ==> (ms.0 * 60 + ms.1) as real <= avgSeconds < (ms.0 * 60 + ms.1 + 1) as real
  {
    var minutes := (avgSeconds / 60.0).Floor;
    var seconds := JsRemainder(avgSeconds, 60.0).Floor;
    if avgSeconds >= 0.0 then
      assert Trunc(avgSeconds / 60.0) == minutes;
      (minutes, seconds)
    else (minutes, seconds)
  }

  /** `calculateAverageSessionTime`: `"{m}m {s}s"` for the mean session length,
      `"0m 0s"` when there are no sessions. */
  function CalculateAverageSessionTime(totalSessionTime: real, totalSessions: real): (text: string)
    ensures totalSessions == 0.0 ==> text == "0m 0s"
    ensures totalSessions != 0.0 ==>
      var ms := SessionParts(totalSessionTime / totalSessions);
      text == IntToString(ms.0) + "m " + IntToString(ms.1) + "s"
  {
    if totalSessions == 0.0 then "0m 0s"
    else
      var ms := SessionParts(totalSessionTime / totalSessions);
      IntToString(ms.0) + "m " + IntToString(ms.1) + "s"
  }

  /** The numbers in the label read back as the minutes and seconds. */
  lemma AverageSessionTimeReadsBack(totalSessionTime: real, totalSessions: real)
    requires totalSessions != 0.0
    ensures var ms := SessionParts(totalSessionTime / totalSessions);
      ParseInt(Some(IntToString(ms.0))) == Some(ms.0) && ParseInt(Some(IntToString(ms.1))) == Some(ms.1)
  {
    var ms := SessionParts(totalSessionTime / totalSessions);
    ParseIntOfIntToString(ms.0);
    ParseIntOfIntToString(ms.1);
  }

  /** `[^\s@]`: a character the e-mail pattern accepts outside the `@`. */
  predicate EmailChar(c: char) {
    !IsWhitespace(c) && c != '@'
  }

  predicate AllEmailChars(s: string) {
    forall k :: 0 <= k < |s| ==> EmailChar(s[k])
  }

  /** A `.` with at least one character on either side. */
  predicate HasInnerDot(d: string) {
    exists j :: 0 < j < |d| - 1 && d[j] == '.'
  }

  /** `email` reads `L@D1.D2` with the `@` at `at` and a `.` at `dot`, where
      every other character is neither whitespace nor `@`, and L, D1 and D2
      are non-empty. */
  predicate EmailShapeAt(email: string, at: int, dot: int) {
    && 0 < at && at + 1 < dot && dot + 1 < |email|
    && email[at] == '@' && email[dot] == '.'
    && forall k :: 0 <= k < |email| && k != at ==> EmailChar(email[k])
  }

  /** `isValidEmail`: the test of `/^[^\s@]+@[^\s@]+\.[^\s@]+$/`, done by
      splitting at the first `@`. */
  function IsValidEmail(email: string): bool {
    match IndexOf(email, '@')
    case None => false
    case Some(at) =>
      0 < at && AllEmailChars(email[..at]) && AllEmailChars(email[at + 1..]) && HasInnerDot(email[at + 1..])
  }

  /** The check accepts exactly the strings of the pattern's shape; in
      particular a valid address holds exactly one `@`. */
  lemma IsValidEmailShape(email: string)
    ensures IsValidEmail(email) <==> exists at, dot :: EmailShapeAt(email, at, dot)
  {
    if IsValidEmail(email) {
      var at := IndexOf(email, '@').value;
      var domain := email[at + 1..];
      var j :| 0 < j < |domain| - 1 && domain[j] == '.';
      forall k | 0 <= k < |email| && k != at ensures EmailChar(email[k]) {
        if k < at {
          assert email[k] == email[..at][k];
        } else {
          assert email[k] == domain[k - at - 1];
        }
      }
      assert EmailShapeAt(email, at, at + 1 + j);
    }
    if exists at, dot :: EmailShapeAt(email, at, dot) {
      var at, dot :| EmailShapeAt(email, at, dot);
      assert '@' in email;
      var first := IndexOf(email, '@').value;
      assert first == at;
      var domain := email[at + 1..];
      assert domain[dot - at - 1] == '.';
      assert AllEmailChars(email[..at]) by {
        forall k | 0 <= k < at ensures EmailChar(email[..at][k]) {
          assert email[..at][k] == email[k];
        }
      }
      assert AllEmailChars(domain) by {
        forall k | 0 <= k < |domain| ensures EmailChar(domain[k]) {
          assert domain[k] == email[at + 1 + k];
        }
      }
    }
  }

  datatype PaginationParams = PaginationParams(page: int, limit: int, skip: int)

  /** `parseInt(x) || d`: NaN and 0 are falsy. */
  function OrDefault(n: Option<int>, d: int): (r: int)
    ensures n.Some? && n.value != 0 ==> r == n.value
    ensures n.None? || n.value == 0 ==> r == d
  {
    if n.None? || n.value == 0 then d else n.value
  }

  /** The documents before page `page` of `limit` each: `(page - 1) * limit`. */
  function SkipFor(page: int, limit: int): int {
    (page - 1) * limit
  }

  /** A positive page of a non-negative size never skips a negative number. */
  lemma SkipForNonNegative(page: int, limit: int)
    requires page >= 1 && limit >= 0
    ensures SkipFor(page, limit) >= 0
  {
    NonNegativeProduct(page - 1, limit);
  }

  /** `getPaginationParams`: page (default 1), limit (default 10) and the
      number of documents to skip before the page. */
  function GetPaginationParams(page: Option<string>, limit: Option<string>): (p: PaginationParams)
    ensures p.page != 0 && p.limit != 0
    ensures p.page == OrDefault(ParseInt(page), 1) && p.limit == OrDefault(ParseInt(limit), 10)
    ensures p.skip == SkipFor(p.page, p.limit)
  {
    var pg := OrDefault(ParseInt(page), 1);
    var lim := OrDefault(ParseInt(limit), 10);
    PaginationParams(pg, lim, SkipFor(pg, lim))
  }

  /** Numerals the client rendered come back as the same page and limit,
      and a positive page and limit never skip a negative number. */
  lemma PaginationParamsOfNumerals(page: int, limit: int)
    requires page >= 1 && limit >= 1
    ensures var p := GetPaginationParams(Some(IntToString(page)), Some(IntToString(limit)));
      p.page == page && p.limit == limit && p.skip == SkipFor(page, limit) && p.skip >= 0
  {
    ParseIntOfIntToString(page);
    ParseIntOfIntToString(limit);
    SkipForNonNegative(page, limit);
  }

  lemma NonNegativeProduct(a: int, b: int)
    requires a >= 0 && b >= 0
    ensures a * b >= 0
  {
  }

  /** Missing query parameters give the first page of ten. */
  lemma PaginationParamsDefaults()
    ensures GetPaginationParams(None, None) == PaginationParams(1, 10, 0)
  {
  }

  datatype Pagination = Pagination(
    currentPage: int,
    totalPages: Num,
    totalCount: nat,
    hasNextPage: bool,
    hasPrevPage: bool,
    limit: int)

  datatype Paged<T> = Paged(data: seq<T>, pagination: Pagination)

  /** `buildPaginationResponse`. */
  function BuildPaginationResponse<T>(data: seq<T>, totalCount: nat, page: int, limit: int): (r: Paged<T>)
    ensures r.data == data
    ensures r.pagination.currentPage == page && r.pagination.totalCount == totalCount && r.pagination.limit == limit
    ensures r.pagination.totalPages == Ceil(Div(totalCount as real, limit as real))
    ensures r.pagination.hasPrevPage <==> page > 1
    ensures r.pagination.hasNextPage <==> LessThan(page as real, r.pagination.totalPages)
    ensures limit > 0 ==> r.pagination.totalPages.Finite?
  {
    var totalPages := Ceil(Div(totalCount as real, limit as real));
    Paged(data, Pagination(page, totalPages, totalCount, LessThan(page as real, totalPages), page > 1, limit))
  }

  /** For a positive limit there is a next page exactly when the pages up to
      this one hold fewer items than the total. */
  lemma HasNextPageMeansMoreItems<T>(data: seq<T>, totalCount: nat, page: int, limit: int)
    requires limit > 0
    ensures BuildPaginationResponse(data, totalCount, page, limit).pagination.hasNextPage <==> page * limit < totalCount
  {
    var q := Div(totalCount as real, limit as real);
    var c := Ceil(q);
    BelowCeilingIff(page, q.r, c.r);
    BelowQuotientIff(page, totalCount, limit, q.r);
  }

  /** `getPaginationParams` lets a negative limit through (`parseInt("-5") || 10`
      is -5). There is then a next page exactly when `page * limit` exceeds the
      total. A zero limit makes `totalPages` Infinity, or NaN for no items, so
      there is a next page exactly when there are items. */
  lemma HasNextPageNonPositiveLimit<T>(data: seq<T>, totalCount: nat, page: int, limit: int)
    requires limit <= 0
    ensures limit < 0 ==> (BuildPaginationResponse(data, totalCount, page, limit).pagination.hasNextPage <==> page * limit > totalCount)
    ensures limit == 0 ==> (BuildPaginationResponse(data, totalCount, page, limit).pagination.hasNextPage <==> totalCount > 0)
  {
    if limit < 0 {
      var q := Div(totalCount as real, limit as real);
      var c := Ceil(q);
      BelowCeilingIff(page, q.r, c.r);
      BelowNegativeQuotientIff(page, totalCount, limit, q.r);
    }
  }

  /** An integer lies below the ceiling of `x` exactly when it lies below `x`. */
  lemma BelowCeilingIff(p: int, x: real, c: real)
    requires c - 1.0 < x <= c && c == c.Floor as real
    ensures (p as real) < c <==> (p as real) < x
  {
    if (p as real) < c {
      assert p <= c.Floor - 1;
    }
  }

  /** `p < n / l` exactly when `p * l < n`, for a positive `l`. */
  lemma BelowQuotientIff(p: int, n: nat, l: int, x: real)
    requires l > 0 && x * l as real == n as real
    ensures (p as real) < x <==> p * l < n
  {
    assert (p * l) as real == (p as real) * (l as real);
    if (p as real) < x {
      assert (p as real) * (l as real) < x * (l as real);
    } else {
      assert (p as real) * (l as real) >= x * (l as real);
    }
  }

  /** `p < n / l` exactly when `p * l > n`, for a negative `l`. */
  lemma BelowNegativeQuotientIff(p: int, n: nat, l: int, x: real)
    requires l < 0 && x * l as real == n as real
    ensures (p as real) < x <==> p * l > n
  {
    assert (p * l) as real == (p as real) * (l as real);
    if (p as real) < x {
      assert (p as real) * (l as real) > x * (l as real);
    } else {
      assert (p as real) * (l as real) <= x * (l as real);
    }
  }

  /** An object's own enumerable properties, in `Object.keys` order. */
  type Entries = seq<(string, Value)>

  predicate Kept(kv: (string, Value)) {
    kv.1.IsPresent()
  }

  /** The properties `cleanObject` keeps, in their original order. */
  function Cleaned(obj: Entries): Entries {
    Filter(obj, Kept)
  }

  /** `cleanObject`: copies every property whose value is neither `undefined`
      nor `null`, key by key. */
  method CleanObject(obj: Entries) returns (cleaned: Entries)
    ensures cleaned == Cleaned(obj)
    ensures forall kv :: kv in cleaned <==> kv in obj && kv.1.IsPresent()
  {
    cleaned := [];
    for i := 0 to |obj|
      invariant cleaned == Filter(obj[..i], Kept)
    {
      assert obj[..i + 1] == obj[..i] + [obj[i]];
      FilterSnoc(obj[..i], obj[i], Kept);
      if obj[i].1.IsPresent() {
        cleaned := cleaned + [obj[i]];
      }
    }
    assert obj[..|obj|] == obj;
  }

  /** Cleaning a cleaned object changes nothing. */
  lemma CleanedIdempotent(obj: Entries)
    ensures Cleaned(Cleaned(obj)) == Cleaned(obj)
  {
    FilterStronger(obj, Kept, Kept);
  }
}
