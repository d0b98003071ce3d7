/** The analytics controller (backend/controllers/analytics.js): recording an
    event for the caller's organisation, the filtered and paged event list,
    the dashboard overview and the distinct-user metric. Every query is
    scoped to the caller's organisation. */
module Analytics {
  import opened JsValues
  import opened Aggregation
  import opened EventSchema
  import opened ErrorHandler
  import opened Periods

  /** The caller's own organisation, stamped over whatever the body says. */
  function Stamped(body: EventBody, callerOrg: OrgId): EventBody {
    body.(organization := Some(callerOrg))
  }

  /** Stamping decides the stored organisation: the body's own `organization`
      never matters, the stored event belongs to the caller, and the event is
      rejected only for its name. */
  lemma StampedOrganizationWins(body: EventBody, other: Option<OrgId>, callerOrg: OrgId, now: int)
    ensures Create(Stamped(body, callerOrg), now) == Create(Stamped(body.(organization := other), callerOrg), now)
    ensures Create(Stamped(body, callerOrg), now).Ok? ==> Create(Stamped(body, callerOrg), now).value.organization == callerOrg
    ensures Create(Stamped(body, callerOrg), now).Ok? <==> body.name.Some? && ValidName(JsStrings.Trim(body.name.value))
    ensures Create(Stamped(body, callerOrg), now).Invalid? ==>
              ORGANIZATION_REQUIRED_MESSAGE !in Create(Stamped(body, callerOrg), now).messages
  {
    assert Stamped(body, callerOrg) == Stamped(body.(organization := other), callerOrg);
  }

  /** The `GET /events` query string. `None` is a parameter left out; date
      parameters are already parsed instants. */
  datatype EventsQuery = EventsQuery(
    name: Option<string>,
    startDate: Option<int>,
    endDate: Option<int>,
    userId: Option<string>,
    limit: Option<int>,
    page: Option<int>)

  /** A string parameter JavaScript treats as true: present and not empty. */
  predicate Truthy(s: Option<string>) {
    s.Some? && s.value != ""
  }

  /** What the event list selects, stated per parameter. */
  function Selected(org: OrgId, q: EventsQuery): Event -> bool {
    (e: Event) =>
      && e.organization == org
      && (Truthy(q.name) ==> e.name == q.name.value)
      && (Truthy(q.userId) ==> e.userId == Present(q.userId.value))
      && (q.startDate.Some? ==> e.timestamp >= q.startDate.value)
      && (q.endDate.Some? ==> e.timestamp <= q.endDate.value)
  }

  /** The query object `getEvents` builds: organisation plus optional conditions. */
  datatype EventFilter = EventFilter(
    organization: OrgId,
    name: Option<string>,
    userId: Option<string>,
    from: Option<int>,
    to: Option<int>)

  /** How the store reads the query object. */
  predicate Matches(f: EventFilter, e: Event) {
    && e.organization == f.organization
    && (f.name.Some? ==> e.name == f.name.value)
    && (f.userId.Some? ==> e.userId == Present(f.userId.value))
    && (f.from.Some? ==> e.timestamp >= f.from.value)
    && (f.to.Some? ==> e.timestamp <= f.to.value)
  }

  function MatchesQuery(f: EventFilter): Event -> bool {
    e => Matches(f, e)
  }

  /** The store finds through the query object exactly what the parameters select. */
  lemma QueryObjectSelects(events: seq<Event>, f: EventFilter, org: OrgId, q: EventsQuery)
    requires forall e :: Matches(f, e) <==> Selected(org, q)(e)
    ensures Filter(events, MatchesQuery(f)) == Filter(events, Selected(org, q))
  {
    FilterAgree(events, MatchesQuery(f), Selected(org, q));
  }

  /** Builds the query field by field; a condition is added only for a
      parameter that was supplied, and the organisation always is. */
  method BuildFilter(org: OrgId, q: EventsQuery) returns (f: EventFilter)
    ensures f.organization == org
    ensures f.name.Some? <==> Truthy(q.name)
    ensures f.userId.Some? <==> Truthy(q.userId)
    ensures f.from == q.startDate && f.to == q.endDate
    ensures forall e :: Matches(f, e) <==> Selected(org, q)(e)
  {
    f := EventFilter(org, None, None, None, None);
    if Truthy(q.name) {
      f := f.(name := q.name);
    }
    if Truthy(q.userId) {
      f := f.(userId := q.userId);
    }
    if q.startDate.Some? || q.endDate.Some? {
      if q.startDate.Some? {
        f := f.(from := q.startDate);
      }
      if q.endDate.Some? {
        f := f.(to := q.endDate);
      }
    }
  }

  const DEFAULT_EVENTS_LIMIT := 100
  const DEFAULT_EVENTS_PAGE := 1

  /** How many matching events `getEvents` skips: `(page - 1) * limit`, with
      the defaults filled in; negative for a page below 1 with a positive
      limit. */
  function EventsSkip(q: EventsQuery): int {
    (q.page.GetOr(DEFAULT_EVENTS_PAGE) - 1) * q.limit.GetOr(DEFAULT_EVENTS_LIMIT)
  }

  function TimestampScore(e: Event): real {
    e.timestamp as real
  }

  /** `sort({timestamp: -1})`: newest first. */
  function NewestFirst(s: seq<Event>): (r: seq<Event>)
    ensures multiset(r) == multiset(s) && SortedDesc(r, TimestampScore)
  {
    SortDesc(s, TimestampScore)
  }

  /** The list response: the page of events and its pagination block. */
  datatype EventsPage = EventsPage(count: nat, total: nat, page: int, pages: Num, events: seq<Event>)

  /** The server's refusal of a negative skip. */
  function NegativeSkipError(): JsError {
    JsError("MongoServerError", None, [])
  }

  /** The event collection of the document store. */
  class EventCollection {
    var events: seq<Event>

    constructor (initial: seq<Event>)
      ensures events == initial
    {
      events := initial;
    }

    /** `trackEvent`: stamp the caller's organisation, validate and store. */
    method TrackEvent(callerOrg: OrgId, body: EventBody, now: int) returns (reply: Reply<Event>)
      modifies this
      ensures var r := Create(Stamped(body, callerOrg), now);
        && (r.Ok? ==> reply == Success(201, r.value) && events == old(events) + [r.value])
        && (r.Invalid? ==> reply == Failure(ErrorResponse(400, false, JsStrings.Join(r.messages, ", ")))
                           && events == old(events))
    {
      var stamped := body;
      stamped := stamped.(organization := Some(callerOrg));
      var r := Create(stamped, now);
      if r.Ok? {
        events := events + [r.value];
        reply := Success(201, r.value);
      } else {
        var response := HandleError(ValidationError(r.messages));
        reply := Failure(response);
      }
    }

    /** `getEvents`: the caller's matching events, newest first, one page of
        them, and the total number that match. */
    method GetEvents(callerOrg: OrgId, q: EventsQuery) returns (reply: Reply<EventsPage>)
      ensures var limit := q.limit.GetOr(DEFAULT_EVENTS_LIMIT);
              var skip := EventsSkip(q);
        && (reply.Success? <==> skip >= 0)
        && (reply.Failure? ==> reply.response == ErrorResponse(500, false, "Server Error"))
        && (reply.Success? ==>
              var matching := Filter(events, Selected(callerOrg, q));
              var p := reply.data;
              && reply.status == 200
              && p.total == |matching|
              && p.events == SkipLimit(NewestFirst(matching), skip, limit)
              && p.count == |p.events|
              && p.page == q.page.GetOr(DEFAULT_EVENTS_PAGE)
              && p.pages == Ceil(Div(p.total as real, limit as real)))
      ensures reply.Success? ==>
        && (forall e :: e in reply.data.events ==> e in events && e.organization == callerOrg && Selected(callerOrg, q)(e))
        && SortedDesc(reply.data.events, TimestampScore)
        && (q.limit.GetOr(DEFAULT_EVENTS_LIMIT) != 0 ==> |reply.data.events| <= Abs(q.limit.GetOr(DEFAULT_EVENTS_LIMIT)))
    {
      var limit := q.limit.GetOr(DEFAULT_EVENTS_LIMIT);
      var page := q.page.GetOr(DEFAULT_EVENTS_PAGE);
      var f := BuildFilter(callerOrg, q);
      var skip := EventsSkip(q);
      if skip < 0 {
        var response := HandleError(NegativeSkipError());
        reply := Failure(response);
        return;
      }
      var matching := Filter(events, MatchesQuery(f));
      QueryObjectSelects(events, f, callerOrg, q);
      var found := SkipLimit(NewestFirst(matching), skip, limit);
      PageOfMatching(events, Selected(callerOrg, q), skip, limit);
      var total := |matching|;
      reply := Success(200, EventsPage(|found|, total, page, Ceil(Div(total as real, limit as real)), found));
    }
  }

  /** A page of the matching events holds only matching events, newest
      first, and no more than the limit. */
  lemma PageOfMatching(events: seq<Event>, selected: Event -> bool, skip: nat, limit: int)
    ensures var page := SkipLimit(NewestFirst(Filter(events, selected)), skip, limit);
      && (forall e :: e in page ==> e in events && selected(e))
      && SortedDesc(page, TimestampScore)
      && (limit != 0 ==> |page| <= Abs(limit))
  {
    var matching := Filter(events, selected);
    var sorted := NewestFirst(matching);
    var page := SkipLimit(sorted, skip, limit);
    if skip < |sorted| {
      SortedDescSlice(sorted, skip, skip + |page|, TimestampScore);
      forall e | e in page ensures e in matching {
        assert e in multiset(sorted);
      }
    }
  }

  /** Events of `org` at or after `from`. */
  function Since(org: OrgId, from: int): Event -> bool {
    (e: Event) => e.organization == org && e.timestamp >= from
  }

  /** The user an event names, when it names one (`userId: {$exists: true, $ne: null}`). */
  function KnownUser(e: Event): Option<string> {
    if e.userId.Present? then Some(e.userId.value) else None
  }

  /** What `$addToSet: '$userId'` collects: an explicit null is a value of its own,
      a missing field adds nothing. */
  function AddedUser(e: Event): Option<Field<string>> {
    if e.userId.Absent? then None else Some(e.userId)
  }

  function EventName(e: Event): string {
    e.name
  }

  /** Bucketing a timestamp by calendar day (`$dateToString: '%Y-%m-%d'`):
      `dayOf` numbers days so that later days have larger numbers, as the
      zero-padded date strings sort. */
  function DayKey(dayOf: int -> int): Event -> int {
    (e: Event) => dayOf(e.timestamp)
  }

  function MonthKey(monthOf: int -> YearMonth): Event -> YearMonth {
    (e: Event) => monthOf(e.timestamp)
  }

  /** `$sort: {_id: 1}` on day buckets: earlier days first. */
  function EarlierDayFirst(b: Bucket<int>): real {
    -(b.key as real)
  }

  /** The instants `getOverview` measures from: midnight today, a week and a
      month before it, and five months before the moment of the request. */
  datatype OverviewClock = OverviewClock(today: int, lastWeek: int, lastMonth: int, fiveMonthsAgo: int)

  /** A week back is no earlier than a month back, which holds for every calendar. */
  predicate NestedWindows(c: OverviewClock) {
    c.lastMonth <= c.lastWeek <= c.today
  }

  datatype MonthlyUsers = MonthlyUsers(id: YearMonth, month: string, users: nat)

  function EarlierMonthFirst(m: MonthlyUsers): real {
    -(MonthIndex(m.id) as real)
  }

  datatype Overview = Overview(
    totalEventsToday: nat,
    uniqueUsersToday: nat,
    totalEventsThisWeek: nat,
    totalEventsThisMonth: nat,
    topEvents: seq<Bucket<string>>,
    dailyEvents: seq<Bucket<int>>,
    monthlyUsers: seq<MonthlyUsers>)

  /** `topEvents`: `$group` by name with a count, `$sort` by count descending, `$limit: 5`. */
  function TopEvents(week: seq<Event>): (top: seq<Bucket<string>>)
    ensures |top| <= 5
  {
    TopK(GroupCount(week, EventName), 5, CountOf)
  }

  /** `dailyEvents`: `$group` by calendar day with a count, `$sort` by day ascending. */
  function DailyEvents(week: seq<Event>, dayOf: int -> int): seq<Bucket<int>> {
    SortDesc(GroupCount(week, DayKey(dayOf)), EarlierDayFirst)
  }

  /** The month rows before sorting: distinct users per calendar month, labelled. */
  function MonthRows(recent: seq<Event>, monthOf: int -> YearMonth): seq<MonthlyUsers> {
    Map(GroupKeys(recent, Keyed(MonthKey(monthOf))), MonthRowOf(recent, monthOf))
  }

  /** The month `$group`'s output for one month: its distinct users, labelled. */
  function MonthRowOf(recent: seq<Event>, monthOf: int -> YearMonth): YearMonth -> MonthlyUsers {
    (ym: YearMonth) => MonthlyUsers(ym, MonthName(ym.month),
                                    |Distinct(Filter(recent, KeyIs(MonthKey(monthOf), ym)), AddedUser)|)
  }

  /** `monthlyUsers`: `$group` by year and month collecting user ids, labelled
      and sorted by year, then month. */
  function MonthlyUserRows(recent: seq<Event>, monthOf: int -> YearMonth): seq<MonthlyUsers> {
    SortDesc(MonthRows(recent, monthOf), EarlierMonthFirst)
  }

  /** `getOverview` for the caller's organisation. */
  function GetOverview(events: seq<Event>, org: OrgId, clock: OverviewClock,
                       dayOf: int -> int, monthOf: int -> YearMonth): (o: Overview)
    ensures o.uniqueUsersToday <= o.totalEventsToday
    ensures |o.topEvents| <= 5
  {
    var today := Filter(events, Since(org, clock.today));
    var week := Filter(events, Since(org, clock.lastWeek));
    Overview(
      |today|,
      |Distinct(today, KnownUser)|,
      |week|,
      Count(events, Since(org, clock.lastMonth)),
      TopEvents(week),
      DailyEvents(week, dayOf),
      MonthlyUserRows(Filter(events, Since(org, clock.fiveMonthsAgo)), monthOf))
  }

  /** Today's window lies inside the week's, which lies inside the month's,
      so the three counts never decrease. */
  lemma OverviewWindowsNested(events: seq<Event>, org: OrgId, clock: OverviewClock,
                              dayOf: int -> int, monthOf: int -> YearMonth)
    requires NestedWindows(clock)
    ensures var o := GetOverview(events, org, clock, dayOf, monthOf);
      o.totalEventsToday <= o.totalEventsThisWeek <= o.totalEventsThisMonth
  {
    CountMonotone(events, Since(org, clock.today), Since(org, clock.lastWeek));
    CountMonotone(events, Since(org, clock.lastWeek), Since(org, clock.lastMonth));
  }

  /** Every top bucket counts exactly the events of its name, at least one. */
  lemma TopEventsCounts(week: seq<Event>)
    ensures forall b :: b in TopEvents(week) ==> b.count == Count(week, KeyIs(EventName, b.key)) && b.count > 0
  {
    var ks := GroupKeys(week, Keyed(EventName));
    var rows := GroupCount(week, EventName);
    TopKSpec(rows, 5, CountOf);
    forall b | b in TopEvents(week) ensures b.count == Count(week, KeyIs(EventName, b.key)) && b.count > 0 {
      assert b in multiset(rows);
      var i :| 0 <= i < |rows| && rows[i] == b;
      assert ks[i] in ks;
      var x :| x in week && Keyed(EventName)(x) == Some(ks[i]);
      assert x in Filter(week, KeyIs(EventName, ks[i]));
    }
  }

  /** No name left out of the top events occurs more often than a name kept. */
  lemma TopEventsBusiest(week: seq<Event>, e: Event, b: Bucket<string>)
    requires e in week && b in TopEvents(week)
    requires forall c :: c in TopEvents(week) ==> c.key != e.name
    ensures Count(week, KeyIs(EventName, e.name)) <= b.count
  {
    var ks := GroupKeys(week, Keyed(EventName));
    var rows := GroupCount(week, EventName);
    assert Keyed(EventName)(e) == Some(e.name);
    assert e.name in ks;
    var i :| 0 <= i < |ks| && ks[i] == e.name;
    var row := rows[i];
    assert row == Bucket(e.name, Count(week, KeyIs(EventName, e.name)));
    assert row !in TopEvents(week);
    TopKLeftOut(rows, 5, CountOf, row, b);
  }

  /** The top events are busiest first and count no more than the week's events. */
  lemma TopEventsTotal(week: seq<Event>)
    ensures SortedDesc(TopEvents(week), CountOf)
    ensures Sum(TopEvents(week), CountOf) <= |week| as real
  {
    var rows := GroupCount(week, EventName);
    TopKSpec(rows, 5, CountOf);
    TopKSumAtMost(rows, 5, CountOf);
    GroupCountTotal(week, EventName, SortDesc(rows, CountOf));
  }

  /** The daily buckets come earliest day first, each counting the events of its day. */
  lemma DailyEventsOrdered(week: seq<Event>, dayOf: int -> int)
    ensures var daily := DailyEvents(week, dayOf);
      && (forall i, j :: 0 <= i < j < |daily| ==> daily[i].key <= daily[j].key)
      && (forall b :: b in daily ==> b.count == Count(week, KeyIs(DayKey(dayOf), b.key)))
  {
    var rows := GroupCount(week, DayKey(dayOf));
    var daily := DailyEvents(week, dayOf);
    forall i, j | 0 <= i < j < |daily| ensures daily[i].key <= daily[j].key {
      assert EarlierDayFirst(daily[i]) >= EarlierDayFirst(daily[j]);
    }
    forall b | b in daily ensures b.count == Count(week, KeyIs(DayKey(dayOf), b.key)) {
      assert b in multiset(rows);
    }
  }

  /** Every day with an event has a bucket, and the buckets add up to the week's total. */
  lemma DailyEventsCover(week: seq<Event>, dayOf: int -> int)
    ensures var daily := DailyEvents(week, dayOf);
      && (forall e :: e in week ==> exists b :: b in daily && b.key == dayOf(e.timestamp))
      && Sum(daily, CountOf) == |week| as real
  {
    var ks := GroupKeys(week, Keyed(DayKey(dayOf)));
    var rows := GroupCount(week, DayKey(dayOf));
    var daily := DailyEvents(week, dayOf);
    forall e | e in week ensures exists b :: b in daily && b.key == dayOf(e.timestamp) {
      assert Keyed(DayKey(dayOf))(e) == Some(dayOf(e.timestamp));
      var i :| 0 <= i < |ks| && ks[i] == dayOf(e.timestamp);
      assert rows[i] in multiset(daily);
    }
    GroupCountTotal(week, DayKey(dayOf), daily);
  }

  /** The monthly rows come earliest month first, each labelled with its
      month's name and counting no more users than its month has events. */
  lemma MonthlyUsersOrdered(recent: seq<Event>, monthOf: int -> YearMonth)
    ensures var rows := MonthlyUserRows(recent, monthOf);
      && (forall i, j :: 0 <= i < j < |rows| ==> MonthIndex(rows[i].id) <= MonthIndex(rows[j].id))
      && (forall m :: m in rows ==> m.month == MonthName(m.id.month) && m.users <= Count(recent, KeyIs(MonthKey(monthOf), m.id)))
  {
    var ks := GroupKeys(recent, Keyed(MonthKey(monthOf)));
    var sorted := MonthlyUserRows(recent, monthOf);
    forall i, j | 0 <= i < j < |sorted| ensures MonthIndex(sorted[i].id) <= MonthIndex(sorted[j].id) {
      assert EarlierMonthFirst(sorted[i]) >= EarlierMonthFirst(sorted[j]);
    }
    forall m | m in sorted
      ensures m.month == MonthName(m.id.month) && m.users <= Count(recent, KeyIs(MonthKey(monthOf), m.id))
    {
      var ym := MapOrigin(ks, MonthRowOf(recent, monthOf), sorted, m);
    }
  }

  /** Every month with an event in the window has a row. */
  lemma MonthlyUsersCover(recent: seq<Event>, monthOf: int -> YearMonth)
    ensures forall e :: e in recent ==> exists m :: m in MonthlyUserRows(recent, monthOf) && m.id == monthOf(e.timestamp)
  {
    var ks := GroupKeys(recent, Keyed(MonthKey(monthOf)));
    var sorted := MonthlyUserRows(recent, monthOf);
    forall e | e in recent ensures exists m :: m in sorted && m.id == monthOf(e.timestamp) {
      GroupKeysCover(recent, MonthKey(monthOf), e);
      MapMember(ks, MonthRowOf(recent, monthOf), monthOf(e.timestamp));
      var m := MonthRowOf(recent, monthOf)(monthOf(e.timestamp));
      assert m in multiset(sorted);
    }
  }

  /** Other organisations' events drop out of every window. */
  lemma SinceIgnoresForeign(events: seq<Event>, foreign: seq<Event>, org: OrgId, from: int)
    requires forall e :: e in foreign ==> e.organization != org
    ensures Filter(events + foreign, Since(org, from)) == Filter(events, Since(org, from))
  {
    FilterAppend(events, foreign, Since(org, from));
    FilterNone(foreign, Since(org, from));
  }

  /** Events of other organisations never show in the overview. */
  lemma OverviewTenantIsolation(events: seq<Event>, foreign: seq<Event>, org: OrgId, clock: OverviewClock,
                                dayOf: int -> int, monthOf: int -> YearMonth)
    requires forall e :: e in foreign ==> e.organization != org
    ensures GetOverview(events + foreign, org, clock, dayOf, monthOf) == GetOverview(events, org, clock, dayOf, monthOf)
  {
    SinceIgnoresForeign(events, foreign, org, clock.today);
    SinceIgnoresForeign(events, foreign, org, clock.lastWeek);
    SinceIgnoresForeign(events, foreign, org, clock.lastMonth);
    SinceIgnoresForeign(events, foreign, org, clock.fiveMonthsAgo);
  }

  /** The instants `getUserMetrics` measures from: midnight today, and a week,
      a month and a year before the moment of the request. */
  datatype MetricsClock = MetricsClock(startOfDay: int, weekAgo: int, monthAgo: int, yearAgo: int)

  function MetricsStart(p: MetricsPeriod, c: MetricsClock): int {
    match p
    case Day => c.startOfDay
    case Week => c.weekAgo
    case Month => c.monthAgo
    case Year => c.yearAgo
  }

  /** `getUserMetrics`: the number of distinct non-null user ids since the
      period's start, or 400 for a period it does not know. */
  function GetUserMetrics(events: seq<Event>, org: OrgId, period: Option<string>, clock: MetricsClock): (r: Reply<nat>)
    ensures r.Failure? <==> ParseMetricsPeriod(period).None?
    ensures r.Failure? ==> r.response == ErrorResponse(400, false, "Invalid period specified")
    ensures r.Success? ==> r.status == 200
    ensures r.Success? ==> r.data == UsersSince(events, org, MetricsStart(ParseMetricsPeriod(period).value, clock))
  {
    match ParseMetricsPeriod(period)
    case None => Failure(ErrorResponse(400, false, "Invalid period specified"))
    case Some(p) => Success(200, UsersSince(events, org, MetricsStart(p, clock)))
  }

  /** The distinct non-null user ids of `org`'s events at or after `from`. */
  function UsersSince(events: seq<Event>, org: OrgId, from: int): (n: nat)
    ensures n <= Count(events, Since(org, from))
  {
    |Distinct(Filter(events, Since(org, from)), KnownUser)|
  }

  /** A longer period never counts fewer users: with the instants in their
      calendar order, the metric for `day`, `week`, `month` and `year` never
      decreases. */
  lemma UserMetricsMonotone(events: seq<Event>, org: OrgId, clock: MetricsClock)
    requires clock.yearAgo <= clock.monthAgo <= clock.weekAgo <= clock.startOfDay
    ensures UsersSince(events, org, clock.startOfDay)
         <= UsersSince(events, org, clock.weekAgo)
         <= UsersSince(events, org, clock.monthAgo)
         <= UsersSince(events, org, clock.yearAgo)
  {
    UsersSinceMonotone(events, org, clock.startOfDay, clock.weekAgo);
    UsersSinceMonotone(events, org, clock.weekAgo, clock.monthAgo);
    UsersSinceMonotone(events, org, clock.monthAgo, clock.yearAgo);
  }

  lemma UsersSinceMonotone(events: seq<Event>, org: OrgId, later: int, earlier: int)
    requires earlier <= later
    ensures UsersSince(events, org, later) <= UsersSince(events, org, earlier)
  {
    DistinctMonotone(events, Since(org, later), Since(org, earlier), KnownUser);
  }
}
