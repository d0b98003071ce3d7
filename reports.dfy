/** The reports controller (backend/controllers/reports.js): the business
    overview, the user-activity report and the five-step conversion funnel,
    each over the caller's organisation and a lookback window. */
module Reports {
  import opened JsValues
  import opened Aggregation
  import opened EventSchema
  import opened Periods
  import Analytics
  import Helpers

  const PURCHASE_EVENTS: seq<string> := ["purchase", "purchase_completed", "payment_success"]
  const ORDER_EVENTS: seq<string> := ["purchase", "purchase_completed"]
  const PAGE_VIEW := "page_view"
  const TOP_PRODUCTS_LIMIT: nat := 5
  const TOP_PAGES_LIMIT: nat := 10
  const AVERAGE_SESSION_TIME := "4m 23s"
  const PAGE_AVERAGE_TIME := "3m 45s"

  /** A part of a whole as a percentage, 0 when the whole is 0: the shape of
      the conversion rate, the bounce rate, the device shares and the
      corrected funnel shares. */
  function Percentage(part: nat, whole: nat): (p: real)
    ensures whole == 0 ==> p == 0.0
    ensures part <= whole ==> 0.0 <= p <= 100.0
  {
    if whole > 0 then (part as real / whole as real) * 100.0 else 0.0
  }

  /** A percentage of a non-zero whole, taken of that whole, gives back the part. */
  lemma PercentageOfWhole(part: nat, whole: nat)
    requires whole > 0
    ensures Percentage(part, whole) * whole as real == part as real * 100.0
  {
  }

  // ---------------------------------------------------------------- business overview

  /** What `$sum` and `$avg` take from `properties.amount`: a number, and
      nothing from any other value. */
  function Amount(e: Event): real {
    if "amount" in e.properties && e.properties["amount"].Number? then e.properties["amount"].n else 0.0
  }

  /** The events `$avg` averages over: those whose amount is a number. */
  predicate HasNumericAmount(e: Event) {
    "amount" in e.properties && e.properties["amount"].Number?
  }

  /** The revenue `$match`: a purchase-like name, in the window, with an amount. */
  function IsRevenueEvent(org: OrgId, start: int): Event -> bool {
    (e: Event) => e.organization == org && e.name in PURCHASE_EVENTS && e.timestamp >= start && "amount" in e.properties
  }

  /** The purchasers' `distinct`: a purchase-like name in the window. */
  function IsPurchase(org: OrgId, start: int): Event -> bool {
    (e: Event) => e.organization == org && e.name in PURCHASE_EVENTS && e.timestamp >= start
  }

  /** The orders behind the monthly trend: `purchase` or `purchase_completed`
      in the window (never `payment_success`). */
  function IsOrder(org: OrgId, start: int): Event -> bool {
    (e: Event) => e.organization == org && e.name in ORDER_EVENTS && e.timestamp >= start
  }

  /** The orders behind the product ranking: orders that name a product. */
  function IsProductOrder(org: OrgId, start: int): Event -> bool {
    (e: Event) => e.organization == org && e.name in ORDER_EVENTS && e.timestamp >= start && "product" in e.properties
  }

  /** `revenueData[0]?.totalRevenue || 0`: the summed amounts, 0 without revenue events. */
  function TotalRevenue(revenue: seq<Event>): real {
    Sum(revenue, Amount)
  }

  /** `revenueData[0]?.avgOrderValue || 0`: the mean of the numeric amounts,
      0 when there is none. */
  function AverageOrderValue(revenue: seq<Event>): real {
    var priced := Filter(revenue, HasNumericAmount);
    if |priced| == 0 then 0.0 else Sum(priced, Amount) / |priced| as real
  }

  /** The average is the total revenue spread over the orders with a numeric
      amount, and both are 0 when no order carries one. */
  lemma AverageOrderValueSpec(revenue: seq<Event>)
    ensures var priced := Filter(revenue, HasNumericAmount);
      && (|priced| > 0 ==> AverageOrderValue(revenue) == TotalRevenue(revenue) / |priced| as real)
      && (|priced| == 0 ==> AverageOrderValue(revenue) == 0.0 && TotalRevenue(revenue) == 0.0)
  {
    var priced := Filter(revenue, HasNumericAmount);
    SumFilterZero(revenue, HasNumericAmount, Amount);
    if |priced| == 0 {
      assert priced == [];
    }
  }

  /** `conversionRate`: purchasers over visitors, as a percentage, 0 without
      visitors. Visitors and purchasers are the distinct `userId` values
      (`null` included) of the window and of its purchases. */
  function ConversionRate(events: seq<Event>, org: OrgId, start: int): (rate: real)
    ensures 0.0 <= rate <= 100.0
    ensures rate == Percentage(|Distinct(Filter(events, IsPurchase(org, start)), Analytics.AddedUser)|,
                               |Distinct(Filter(events, Analytics.Since(org, start)), Analytics.AddedUser)|)
  {
    var visitors := |Distinct(Filter(events, Analytics.Since(org, start)), Analytics.AddedUser)|;
    var purchasers := |Distinct(Filter(events, IsPurchase(org, start)), Analytics.AddedUser)|;
    DistinctMonotone(events, IsPurchase(org, start), Analytics.Since(org, start), Analytics.AddedUser);
    Percentage(purchasers, visitors)
  }

  /** The `_id` of a product group: `properties.product`. */
  function ProductKey(e: Event): Value {
    if "product" in e.properties then e.properties["product"] else Undefined
  }

  /** One output document of the product `$group`. */
  datatype ProductRow = ProductRow(name: Value, revenue: real, units: nat)

  function RowRevenue(r: ProductRow): real {
    r.revenue
  }

  /** The orders of one product. */
  function ProductOrders(orders: seq<Event>, product: Value): seq<Event> {
    Filter(orders, KeyIs(ProductKey, product))
  }

  /** The product `$group`'s output for one product: summed amounts and units. */
  function ProductRowOf(orders: seq<Event>): Value -> ProductRow {
    (k: Value) => ProductRow(k, Sum(ProductOrders(orders, k), Amount), |ProductOrders(orders, k)|)
  }

  /** `$group` by product summing the amounts and counting the units. */
  function ProductRows(orders: seq<Event>): seq<ProductRow> {
    Map(GroupKeys(orders, Keyed(ProductKey)), ProductRowOf(orders))
  }

  /** `topProducts`: the product rows by revenue, highest first, at most 5. */
  function TopProducts(orders: seq<Event>): (top: seq<ProductRow>)
    ensures |top| <= TOP_PRODUCTS_LIMIT
  {
    TopK(ProductRows(orders), TOP_PRODUCTS_LIMIT, RowRevenue)
  }

  /** Every top product row carries its product's revenue and a unit count
      of at least one, and the rows come highest revenue first. */
  lemma TopProductsSpec(orders: seq<Event>)
    ensures SortedDesc(TopProducts(orders), RowRevenue)
    ensures forall r :: r in TopProducts(orders) ==>
      && r.units == |ProductOrders(orders, r.name)| > 0
      && r.revenue == Sum(ProductOrders(orders, r.name), Amount)
  {
    var ks := GroupKeys(orders, Keyed(ProductKey));
    var top := TopProducts(orders);
    TopKSpec(ProductRows(orders), TOP_PRODUCTS_LIMIT, RowRevenue);
    forall r | r in top
      ensures r.units == |ProductOrders(orders, r.name)| > 0 && r.revenue == Sum(ProductOrders(orders, r.name), Amount)
    {
      var k := MapOrigin(ks, ProductRowOf(orders), top, r);
      GroupNonEmpty(orders, ProductKey, k);
    }
  }

  /** No product left out of the ranking earned more than a product kept. */
  lemma TopProductsEarnMost(orders: seq<Event>, e: Event, r: ProductRow)
    requires e in orders && r in TopProducts(orders)
    requires forall c :: c in TopProducts(orders) ==> c.name != ProductKey(e)
    ensures Sum(ProductOrders(orders, ProductKey(e)), Amount) <= r.revenue
  {
    var ks := GroupKeys(orders, Keyed(ProductKey));
    var row := ProductRowOf(orders)(ProductKey(e));
    GroupKeysCover(orders, ProductKey, e);
    MapMember(ks, ProductRowOf(orders), ProductKey(e));
    TopKLeftOut(ProductRows(orders), TOP_PRODUCTS_LIMIT, RowRevenue, row, r);
  }

  /** Unlike the total revenue, the ranking never counts a `payment_success`
      event, nor an order without a product. */
  lemma ProductOrdersArePurchases(events: seq<Event>, org: OrgId, start: int, e: Event)
    requires e in events && e.organization == org && e.timestamp >= start
    ensures e in Filter(events, IsProductOrder(org, start)) <==>
              e.name in {"purchase", "purchase_completed"} && "product" in e.properties
    ensures e.name == "payment_success" && "amount" in e.properties ==>
              e in Filter(events, IsRevenueEvent(org, start)) && e !in Filter(events, IsProductOrder(org, start))
  {
  }

  /** One row of `revenueByMonth`. */
  datatype MonthRevenue = MonthRevenue(id: YearMonth, month: string, revenue: real, customers: nat, orders: nat)

  function EarlierMonthFirst(m: MonthRevenue): real {
    -(MonthIndex(m.id) as real)
  }

  /** The orders of one calendar month. */
  function MonthOrders(orders: seq<Event>, monthOf: int -> YearMonth, ym: YearMonth): seq<Event> {
    Filter(orders, KeyIs(Analytics.MonthKey(monthOf), ym))
  }

  /** `$group` by year and month: summed amounts, distinct customers, order count, labelled. */
  function MonthRevenueRows(orders: seq<Event>, monthOf: int -> YearMonth): seq<MonthRevenue> {
    Map(GroupKeys(orders, Keyed(Analytics.MonthKey(monthOf))), MonthRevenueOf(orders, monthOf))
  }

  /** The month `$group`'s output for one month. */
  function MonthRevenueOf(orders: seq<Event>, monthOf: int -> YearMonth): YearMonth -> MonthRevenue {
    (ym: YearMonth) =>
      var g := MonthOrders(orders, monthOf, ym);
      MonthRevenue(ym, MonthName(ym.month), Sum(g, Amount), |Distinct(g, Analytics.AddedUser)|, |g|)
  }

  /** `revenueByMonth`: the month rows sorted by year, then month. */
  function RevenueByMonth(orders: seq<Event>, monthOf: int -> YearMonth): seq<MonthRevenue> {
    SortDesc(MonthRevenueRows(orders, monthOf), EarlierMonthFirst)
  }

  /** The months come earliest first; each row is labelled with its month's
      name, counts that month's orders (at least one) and no more customers
      than orders, and sums that month's amounts. */
  lemma RevenueByMonthSpec(orders: seq<Event>, monthOf: int -> YearMonth)
    ensures var rows := RevenueByMonth(orders, monthOf);
      && (forall i, j :: 0 <= i < j < |rows| ==> MonthIndex(rows[i].id) <= MonthIndex(rows[j].id))
      && (forall m :: m in rows ==>
            && m.month == MonthName(m.id.month)
            && m.orders == |MonthOrders(orders, monthOf, m.id)| > 0
            && m.customers <= m.orders
            && m.revenue == Sum(MonthOrders(orders, monthOf, m.id), Amount))
  {
    var ks := GroupKeys(orders, Keyed(Analytics.MonthKey(monthOf)));
    var sorted := RevenueByMonth(orders, monthOf);
    forall i, j | 0 <= i < j < |sorted| ensures MonthIndex(sorted[i].id) <= MonthIndex(sorted[j].id) {
      assert EarlierMonthFirst(sorted[i]) >= EarlierMonthFirst(sorted[j]);
    }
    forall m | m in sorted
      ensures && m.month == MonthName(m.id.month)
              && m.orders == |MonthOrders(orders, monthOf, m.id)| > 0
              && m.customers <= m.orders
              && m.revenue == Sum(MonthOrders(orders, monthOf, m.id), Amount)
    {
      var ym := MapOrigin(ks, MonthRevenueOf(orders, monthOf), sorted, m);
      GroupNonEmpty(orders, Analytics.MonthKey(monthOf), ym);
    }
  }

  datatype BusinessOverview = BusinessOverview(
    totalRevenue: real,
    totalCustomers: nat,
    conversionRate: real,
    averageOrderValue: real,
    topProducts: seq<ProductRow>,
    revenueByMonth: seq<MonthRevenue>)

  /** `getBusinessOverview` for the caller's organisation; `monthOf` is the
      calendar's `$year`/`$month`. */
  function GetBusinessOverview(events: seq<Event>, org: OrgId, period: Option<string>, now: int,
                               monthOf: int -> YearMonth): (o: BusinessOverview)
    ensures 0.0 <= o.conversionRate <= 100.0
    ensures |o.topProducts| <= TOP_PRODUCTS_LIMIT
  {
    var start := ReportStart(period, now);
    var revenue := Filter(events, IsRevenueEvent(org, start));
    BusinessOverview(
      TotalRevenue(revenue),
      |Distinct(Filter(events, Analytics.Since(org, start)), Analytics.KnownUser)|,
      ConversionRate(events, org, start),
      AverageOrderValue(revenue),
      TopProducts(Filter(events, IsProductOrder(org, start))),
      RevenueByMonth(Filter(events, IsOrder(org, start)), monthOf))
  }

  /** Customers are the distinct non-null users, never more than the visitors
      (who also count an explicit `null`). */
  lemma CustomersAreVisitors(events: seq<Event>, org: OrgId, start: int)
    ensures var window := Filter(events, Analytics.Since(org, start));
      |Distinct(window, Analytics.KnownUser)| <= |Distinct(window, Analytics.AddedUser)|
  {
    var window := Filter(events, Analytics.Since(org, start));
    var known := Distinct(window, Analytics.KnownUser);
    var added := Distinct(window, Analytics.AddedUser);
    var named := set k | k in known :: Present(k);
    forall v | v in named ensures v in added {
      var k :| k in known && v == Present(k);
      var x :| x in window && Analytics.KnownUser(x) == Some(k);
      assert Analytics.AddedUser(x) == Some(v);
    }
    SubsetCardinality(named, added);
    assert |named| == |known| by {
      CardinalityOfImage(known);
    }
  }

  /** Wrapping distinct ids in `Present` keeps them distinct. */
  lemma {:induction false} CardinalityOfImage(ks: set<string>)
    ensures |set k | k in ks :: Present(k)| == |ks|
  {
    if ks != {} {
      var k :| k in ks;
      var rest := ks - {k};
      CardinalityOfImage(rest);
      assert (set j | j in ks :: Present(j)) == (set j | j in rest :: Present(j)) + {Present(k)};
    }
  }

  // ---------------------------------------------------------------- user activity

  /** The session an event names (`sessionId: {$exists: true, $ne: null}`). */
  function KnownSession(e: Event): Option<string> {
    if e.sessionId.Present? then Some(e.sessionId.value) else None
  }

  /** A `page_view` of `org` in the window. */
  predicate PageViewIn(org: OrgId, start: int, e: Event) {
    e.organization == org && e.name == PAGE_VIEW && e.timestamp >= start
  }

  function IsPageView(org: OrgId, start: int): Event -> bool {
    (e: Event) => PageViewIn(org, start, e)
  }

  /** The bounce `$match` as written: `sessionId: {$exists: true}` also keeps
      an explicit `null`. */
  function IsSessionFieldView(org: OrgId, start: int): Event -> bool {
    (e: Event) => PageViewIn(org, start, e) && !e.sessionId.Absent?
  }

  /** The bounce `$match` restricted to the sessions `totalSessions` counts. */
  function IsSessionView(org: OrgId, start: int): Event -> bool {
    (e: Event) => PageViewIn(org, start, e) && e.sessionId.Present?
  }

  function SessionField(e: Event): Field<string> {
    e.sessionId
  }

  function SessionName(e: Event): string {
    if e.sessionId.Present? then e.sessionId.value else ""
  }

  /** `totalSessions`: the distinct named sessions of the window. */
  function Sessions(events: seq<Event>, org: OrgId, start: int): set<string> {
    Distinct(Filter(events, Analytics.Since(org, start)), KnownSession)
  }

  /** The bounce groups as written: `$group` by the `sessionId` field
      (`null` is a group of its own), kept when it holds one page view. */
  function BouncedAsWritten(views: seq<Event>): set<Field<string>> {
    set k | k in GroupKeys(views, Keyed(SessionField)) && Count(views, KeyIs(SessionField, k)) == 1
  }

  /** The bounced sessions: named sessions with exactly one page view. */
  function Bounced(views: seq<Event>): set<string> {
    set k | k in GroupKeys(views, Keyed(SessionName)) && Count(views, KeyIs(SessionName, k)) == 1
  }

  /** The `bounceRate` expression as written, over the groups the unguarded
      `$match` produces. */
  function BounceRateAsWritten(events: seq<Event>, org: OrgId, start: int): real {
    var sessions := |Sessions(events, org, start)|;
    var bounced := |BouncedAsWritten(Filter(events, IsSessionFieldView(org, start)))|;
    Percentage(bounced, sessions)
  }

  /** A page view with a named session lies in the window and names that session. */
  lemma SessionViewInWindow(events: seq<Event>, org: OrgId, start: int, x: Event)
    requires x in Filter(events, IsSessionView(org, start))
    ensures x in Filter(events, Analytics.Since(org, start))
    ensures KnownSession(x) == Some(SessionName(x))
  {
  }

  /** Every bounced session is one of the counted sessions. */
  lemma BouncedAreSessions(events: seq<Event>, org: OrgId, start: int)
    ensures Bounced(Filter(events, IsSessionView(org, start))) <= Sessions(events, org, start)
    ensures |Bounced(Filter(events, IsSessionView(org, start)))| <= |Sessions(events, org, start)|
  {
    var views := Filter(events, IsSessionView(org, start));
    var b := Bounced(views);
    var s := Sessions(events, org, start);
    forall k | k in b ensures k in s {
      var x :| x in views && Keyed(SessionName)(x) == Some(k);
      SessionViewInWindow(events, org, start, x);
    }
    SubsetCardinality(b, s);
  }

  /** `bounceRate`: bounced sessions over sessions, as a percentage, 0
      without sessions; it is `calculateBounceRate` of the two counts and
      lies between 0 and 100. */
  function BounceRate(events: seq<Event>, org: OrgId, start: int): (rate: real)
    ensures 0.0 <= rate <= 100.0
    ensures rate == Helpers.CalculateBounceRate(|Sessions(events, org, start)| as real,
                                                 |Bounced(Filter(events, IsSessionView(org, start)))| as real)
  {
    var sessions := |Sessions(events, org, start)|;
    var bounced := |Bounced(Filter(events, IsSessionView(org, start)))|;
    BouncedAreSessions(events, org, start);
    Percentage(bounced, sessions)
  }

  /** A page view with an explicit `null` session. */
  const NULL_SESSION_VIEW := Event(PAGE_VIEW, "org", Absent, Null, map[], NO_METADATA, 0, 0, 0)
  /** A page view in session `"a"`. */
  const SESSION_A_VIEW := Event(PAGE_VIEW, "org", Absent, Present("a"), map[], NO_METADATA, 0, 0, 0)

  /** The two example views, in store order. */
  const EXAMPLE_VIEWS := [NULL_SESSION_VIEW, SESSION_A_VIEW]

  lemma ExampleSessions()
    ensures Sessions(EXAMPLE_VIEWS, "org", 0) == {"a"}
  {
    assert KnownSession(SESSION_A_VIEW) == Some("a");
    assert KnownSession(NULL_SESSION_VIEW) == None;
  }

  lemma ExampleViewsAsWritten()
    ensures Filter(EXAMPLE_VIEWS, IsSessionFieldView("org", 0)) == EXAMPLE_VIEWS
  {
    assert EXAMPLE_VIEWS[1..] == [SESSION_A_VIEW];
    assert EXAMPLE_VIEWS[1..][1..] == [];
  }

  lemma ExampleViews()
    ensures Filter(EXAMPLE_VIEWS, IsSessionView("org", 0)) == [SESSION_A_VIEW]
  {
    assert EXAMPLE_VIEWS[1..] == [SESSION_A_VIEW];
    assert EXAMPLE_VIEWS[1..][1..] == [];
  }

  lemma ExampleGroupsAsWritten()
    ensures BouncedAsWritten(EXAMPLE_VIEWS) == {Null, Present("a")}
  {
    assert EXAMPLE_VIEWS[1..] == [SESSION_A_VIEW];
    assert EXAMPLE_VIEWS[1..][1..] == [];
    assert Filter(EXAMPLE_VIEWS, KeyIs(SessionField, Null)) == [NULL_SESSION_VIEW];
    assert SESSION_A_VIEW.sessionId == Present("a");
    assert SessionField(SESSION_A_VIEW) == Present("a");
    assert KeyIs(SessionField, Present("a"))(SESSION_A_VIEW);
    assert Filter(EXAMPLE_VIEWS, KeyIs(SessionField, Present("a"))) == [SESSION_A_VIEW];
    assert Keyed(SessionField)(NULL_SESSION_VIEW) == Some(Null);
    assert Keyed(SessionField)(SESSION_A_VIEW) == Some(Present("a"));
  }

  lemma ExampleGroups()
    ensures Bounced([SESSION_A_VIEW]) == {"a"}
  {
    assert [SESSION_A_VIEW][1..] == [];
    assert Filter([SESSION_A_VIEW], KeyIs(SessionName, "a")) == [SESSION_A_VIEW];
    assert Keyed(SessionName)(SESSION_A_VIEW) == Some("a");
  }

  /** One named session with one page view plus one page view with a `null`
      session: as written, the `null` group counts as a second bounce against
      one session, a rate of 200. */
  lemma BounceRateAsWrittenExceedsHundred()
    ensures BounceRateAsWritten(EXAMPLE_VIEWS, "org", 0) == 200.0
  {
    var sessions := |Sessions(EXAMPLE_VIEWS, "org", 0)|;
    var bounced := |BouncedAsWritten(Filter(EXAMPLE_VIEWS, IsSessionFieldView("org", 0)))|;
    assert sessions == 1 by {
      ExampleSessions();
    }
    assert bounced == 2 by {
      ExampleBouncesAsWritten();
    }
    assert BounceRateAsWritten(EXAMPLE_VIEWS, "org", 0) == Percentage(bounced, sessions);
  }

  lemma ExampleBouncesAsWritten()
    ensures |BouncedAsWritten(Filter(EXAMPLE_VIEWS, IsSessionFieldView("org", 0)))| == 2
  {
    ExampleViewsAsWritten();
    ExampleGroupsAsWritten();
    var both: set<Field<string>> := {Null, Present("a")};
    assert both == {Null} + {Present("a")};
  }

  /** On the same views the corrected rate is 100: the one session bounced. */
  lemma BounceRateOfExample()
    ensures BounceRate(EXAMPLE_VIEWS, "org", 0) == 100.0
  {
    ExampleSessions();
    ExampleViews();
    ExampleGroups();
    assert |Sessions(EXAMPLE_VIEWS, "org", 0)| == 1;
    assert |Bounced(Filter(EXAMPLE_VIEWS, IsSessionView("org", 0)))| == 1;
  }

  /** The page a view is grouped under: `properties.page`. */
  function PageKey(e: Event): Value {
    if "page" in e.properties then e.properties["page"] else Undefined
  }

  /** The top-pages `$match`: page views that name a page. */
  function IsPageViewOfPage(org: OrgId, start: int): Event -> bool {
    (e: Event) => PageViewIn(org, start, e) && "page" in e.properties
  }

  /** One entry of `topPages`. */
  datatype PageRow = PageRow(page: Value, views: nat, uniqueViews: nat, avgTime: string)

  function RowViews(r: PageRow): real {
    r.views as real
  }

  /** The views of one page. */
  function PageViewsOf(views: seq<Event>, page: Value): seq<Event> {
    Filter(views, KeyIs(PageKey, page))
  }

  /** `$group` by page counting views and collecting users, projected with the fixed `avgTime`. */
  function PageRows(views: seq<Event>): seq<PageRow> {
    Map(GroupKeys(views, Keyed(PageKey)), PageRowOf(views))
  }

  /** The page `$group`'s output for one page. */
  function PageRowOf(views: seq<Event>): Value -> PageRow {
    (k: Value) => PageRow(k, |PageViewsOf(views, k)|, |Distinct(PageViewsOf(views, k), Analytics.AddedUser)|,
                          PAGE_AVERAGE_TIME)
  }

  /** `topPages`: most viewed first, at most 10. */
  function TopPages(views: seq<Event>): (top: seq<PageRow>)
    ensures |top| <= TOP_PAGES_LIMIT
  {
    TopK(PageRows(views), TOP_PAGES_LIMIT, RowViews)
  }

  /** The top pages come most viewed first; each counts its page's views (at
      least one) and no more unique viewers than views. */
  lemma TopPagesSpec(views: seq<Event>)
    ensures SortedDesc(TopPages(views), RowViews)
    ensures forall r :: r in TopPages(views) ==>
      && r.views == |PageViewsOf(views, r.page)| > 0
      && r.uniqueViews <= r.views
      && r.avgTime == PAGE_AVERAGE_TIME
  {
    var ks := GroupKeys(views, Keyed(PageKey));
    var top := TopPages(views);
    TopKSpec(PageRows(views), TOP_PAGES_LIMIT, RowViews);
    forall r | r in top
      ensures r.views == |PageViewsOf(views, r.page)| > 0 && r.uniqueViews <= r.views && r.avgTime == PAGE_AVERAGE_TIME
    {
      var k := MapOrigin(ks, PageRowOf(views), top, r);
      GroupNonEmpty(views, PageKey, k);
    }
  }

  /** No page left out of the top pages has more views than a page kept. */
  lemma TopPagesMostViewed(views: seq<Event>, e: Event, r: PageRow)
    requires e in views && r in TopPages(views)
    requires forall c :: c in TopPages(views) ==> c.page != PageKey(e)
    ensures |PageViewsOf(views, PageKey(e))| <= r.views
  {
    var ks := GroupKeys(views, Keyed(PageKey));
    var row := PageRowOf(views)(PageKey(e));
    GroupKeysCover(views, PageKey, e);
    MapMember(ks, PageRowOf(views), PageKey(e));
    TopKLeftOut(PageRows(views), TOP_PAGES_LIMIT, RowViews, row, r);
  }

  /** The device a view is grouped under: `metadata.device`, `null` included. */
  function DeviceKey(e: Event): Field<string> {
    e.metadata.device
  }

  /** The devices `$match`: window events whose `metadata.device` exists. */
  function HasDevice(org: OrgId, start: int): Event -> bool {
    (e: Event) => e.organization == org && e.timestamp >= start && !e.metadata.device.Absent?
  }

  /** One entry of `usersByDevice`. */
  datatype DeviceRow = DeviceRow(device: Field<string>, users: nat, percentage: real)

  /** The users seen on one device. */
  function DeviceUsers(withDevice: seq<Event>, d: Field<string>): set<Field<string>> {
    Distinct(Filter(withDevice, KeyIs(DeviceKey, d)), Analytics.AddedUser)
  }

  /** `usersByDevice` with its percentages of `totalUsers`. */
  function DeviceRows(withDevice: seq<Event>, totalUsers: nat): seq<DeviceRow> {
    Map(GroupKeys(withDevice, Keyed(DeviceKey)), DeviceRowOf(withDevice, totalUsers))
  }

  /** The device `$group`'s output for one device, with its share. */
  function DeviceRowOf(withDevice: seq<Event>, totalUsers: nat): Field<string> -> DeviceRow {
    (d: Field<string>) => DeviceRow(d, |DeviceUsers(withDevice, d)|, Percentage(|DeviceUsers(withDevice, d)|, totalUsers))
  }

  /** The distinct users of the window (`null` included): the device shares' whole. */
  function UniqueVisitors(events: seq<Event>, org: OrgId, start: int): set<Field<string>> {
    Distinct(Filter(events, Analytics.Since(org, start)), Analytics.AddedUser)
  }

  /** An event of one device's group is an event of the window. */
  lemma DeviceEventInWindow(events: seq<Event>, org: OrgId, start: int, d: Field<string>, x: Event)
    requires x in Filter(Filter(events, HasDevice(org, start)), KeyIs(DeviceKey, d))
    ensures x in Filter(events, Analytics.Since(org, start))
  {
  }

  /** Each device's users are visitors of the window, so its share lies
      between 0 and 100. */
  lemma DeviceSharesBounded(events: seq<Event>, org: OrgId, start: int)
    ensures var withDevice := Filter(events, HasDevice(org, start));
            var total := |UniqueVisitors(events, org, start)|;
      forall r :: r in DeviceRows(withDevice, total) ==> r.users <= total && 0.0 <= r.percentage <= 100.0
  {
    var withDevice := Filter(events, HasDevice(org, start));
    var total := |UniqueVisitors(events, org, start)|;
    var ks := GroupKeys(withDevice, Keyed(DeviceKey));
    var rows := DeviceRows(withDevice, total);
    forall r | r in rows ensures r.users <= total && 0.0 <= r.percentage <= 100.0 {
      var d := MapOrigin(ks, DeviceRowOf(withDevice, total), rows, r);
      DeviceUsersAreVisitors(events, org, start, d);
      DeviceRowInRange(withDevice, total, d);
    }
  }

  /** A device with no more users than the whole has a share between 0 and 100. */
  lemma DeviceRowInRange(withDevice: seq<Event>, total: nat, d: Field<string>)
    requires |DeviceUsers(withDevice, d)| <= total
    ensures var r := DeviceRowOf(withDevice, total)(d); r.users <= total && 0.0 <= r.percentage <= 100.0
  {
  }

  /** The users seen on one device are visitors of the window. */
  lemma DeviceUsersAreVisitors(events: seq<Event>, org: OrgId, start: int, d: Field<string>)
    ensures |DeviceUsers(Filter(events, HasDevice(org, start)), d)| <= |UniqueVisitors(events, org, start)|
  {
    var window := Filter(events, Analytics.Since(org, start));
    var group := Filter(Filter(events, HasDevice(org, start)), KeyIs(DeviceKey, d));
    forall x | x in group ensures x in window {
      DeviceEventInWindow(events, org, start, d, x);
    }
    DistinctOfSubset(group, window, Analytics.AddedUser);
  }

  /** Every device seen in the window has a row. */
  lemma DevicesCovered(withDevice: seq<Event>, total: nat)
    ensures forall e :: e in withDevice ==> exists r :: r in DeviceRows(withDevice, total) && r.device == DeviceKey(e)
  {
    var ks := GroupKeys(withDevice, Keyed(DeviceKey));
    forall e | e in withDevice ensures exists r :: r in DeviceRows(withDevice, total) && r.device == DeviceKey(e) {
      GroupKeysCover(withDevice, DeviceKey, e);
      MapMember(ks, DeviceRowOf(withDevice, total), DeviceKey(e));
      var r := DeviceRowOf(withDevice, total)(DeviceKey(e));
      assert r.device == DeviceKey(e);
    }
  }

  /** `pageViewsPerSession`, 0 without sessions. */
  function PageViewsPerSession(pageViews: nat, sessions: nat): (r: real)
    ensures sessions == 0 ==> r == 0.0
    ensures sessions > 0 ==> r * sessions as real == pageViews as real
  {
    if sessions > 0 then
      var r := pageViews as real / sessions as real;
      assert r * sessions as real == pageViews as real;
      r
    else 0.0
  }

  datatype UserActivity = UserActivity(
    totalSessions: nat,
    averageSessionTime: string,
    bounceRate: real,
    pageViewsPerSession: real,
    topPages: seq<PageRow>,
    usersByDevice: seq<DeviceRow>)

  /** `getUserActivityReport` for the caller's organisation, with the
      corrected window and bounce count. */
  function GetUserActivityReport(events: seq<Event>, org: OrgId, period: Option<string>, now: int): (a: UserActivity)
    ensures 0.0 <= a.bounceRate <= 100.0
    ensures |a.topPages| <= TOP_PAGES_LIMIT
    ensures a.averageSessionTime == AVERAGE_SESSION_TIME
  {
    var start := ReportStart(period, now);
    var sessions := |Sessions(events, org, start)|;
    UserActivity(
      sessions,
      AVERAGE_SESSION_TIME,
      BounceRate(events, org, start),
      PageViewsPerSession(Count(events, IsPageView(org, start)), sessions),
      TopPages(Filter(events, IsPageViewOfPage(org, start))),
      DeviceRows(Filter(events, HasDevice(org, start)), |UniqueVisitors(events, org, start)|))
  }

  // ---------------------------------------------------------------- conversion funnel

  /** A funnel step: its label, the event names it accepts and, for the
      pricing step, the page the view must be of. */
  datatype FunnelStep = FunnelStep(name: string, events: seq<string>, page: Option<string>)

  const FUNNEL_STEPS: seq<FunnelStep> := [
    FunnelStep("Visited Website", ["page_view"], None),
    FunnelStep("Viewed Product/Pricing", ["page_view"], Some("/pricing")),
    FunnelStep("Started Signup", ["signup_started", "form_submit"], None),
    FunnelStep("Completed Signup", ["signup_completed", "user_registered"], None),
    FunnelStep("Made Purchase", ["purchase", "purchase_completed"], None)
  ]

  /** A step's query: organisation, accepted name, window and, when the step
      names a page, `properties.page` equal to it. */
  function StepMatches(org: OrgId, start: int, step: FunnelStep): Event -> bool {
    (e: Event) =>
      && e.organization == org && e.name in step.events && e.timestamp >= start
      && (step.page.Some? ==> "page" in e.properties && e.properties["page"] == Str(step.page.value))
  }

  /** The distinct `userId` values (`null` included) of a step. */
  function StepUsers(events: seq<Event>, org: OrgId, start: int, step: FunnelStep): nat {
    |Distinct(Filter(events, StepMatches(org, start, step)), Analytics.AddedUser)|
  }

  /** One entry of `steps`. */
  datatype FunnelRow = FunnelRow(step: string, users: nat, percentage: real)

  /** A later step's percentage as written: the guard tests that the first
      entry exists, which it always does, so the share is divided out even
      when the first step has no users. */
  function FunnelPercentageAsWritten(i: nat, users: nat, firstUsers: nat): (p: Num)
    ensures i == 0 ==> p == Finite(100.0)
    ensures i > 0 && firstUsers > 0 ==> p == Finite(Percentage(users, firstUsers))
  {
    if i == 0 then Finite(100.0)
    else match Div(users as real, firstUsers as real)
         case Finite(q) => Finite(q * 100.0)
         case other => other
  }

  /** With no user at the first step, a later step's share is `NaN` when it
      has no users either and `Infinity` when it has some; the corrected
      share is 0 in both cases. */
  lemma FunnelPercentageWithEmptyFirstStep(i: nat, users: nat)
    requires i > 0
    ensures users == 0 ==> FunnelPercentageAsWritten(i, users, 0) == NaN
    ensures users > 0 ==> FunnelPercentageAsWritten(i, users, 0) == PosInf
    ensures Percentage(users, 0) == 0.0
  {
    var q := Div(users as real, 0.0);
    assert users == 0 ==> q.NaN?;
    assert users > 0 ==> q.PosInf?;
  }

  /** The loop of `getConversionFunnel`: one entry per step in order, the
      first at 100 and each later one its users as a share of the first
      step's. `distinctUsers` is the per-step `distinct('userId', query)`. */
  method BuildFunnel(funnelSteps: seq<FunnelStep>, distinctUsers: FunnelStep -> nat) returns (steps: seq<FunnelRow>)
    requires |funnelSteps| > 0
    ensures |steps| == |funnelSteps|
    ensures forall i :: 0 <= i < |steps| ==>
      steps[i].step == funnelSteps[i].name && steps[i].users == distinctUsers(funnelSteps[i])
    ensures steps[0].percentage == 100.0
    ensures forall i :: 1 <= i < |steps| ==> steps[i].percentage == Percentage(steps[i].users, steps[0].users)
  {
    steps := [];
    for i := 0 to |funnelSteps|
      invariant |steps| == i
      invariant forall j :: 0 <= j < i ==>
        steps[j].step == funnelSteps[j].name && steps[j].users == distinctUsers(funnelSteps[j])
      invariant i > 0 ==> steps[0].percentage == 100.0
      invariant forall j :: 1 <= j < i ==> steps[j].percentage == Percentage(steps[j].users, steps[0].users)
    {
      var step := funnelSteps[i];
      var users := distinctUsers(step);
      var percentage := if i == 0 then 100.0 else Percentage(users, steps[0].users);
      steps := steps + [FunnelRow(step.name, users, percentage)];
    }
  }

  /** The per-step query against the caller's events. */
  function UsersOfStep(events: seq<Event>, org: OrgId, start: int): FunnelStep -> nat {
    (step: FunnelStep) => StepUsers(events, org, start, step)
  }

  /** `getConversionFunnel` for the caller's organisation, with the
      corrected window and shares: the five steps in order, each with its
      distinct users in the window, the first at 100 and each later one a
      share of the first, 0 when the first has no users. */
  method GetConversionFunnel(events: seq<Event>, org: OrgId, period: Option<string>, now: int)
    returns (steps: seq<FunnelRow>)
    ensures |steps| == |FUNNEL_STEPS|
    ensures forall i :: 0 <= i < |steps| ==>
      && steps[i].step == FUNNEL_STEPS[i].name
      && steps[i].users == StepUsers(events, org, ReportStart(period, now), FUNNEL_STEPS[i])
    ensures steps[0].percentage == 100.0
    ensures forall i :: 1 <= i < |steps| ==> steps[i].percentage == Percentage(steps[i].users, steps[0].users)
  {
    steps := BuildFunnel(FUNNEL_STEPS, UsersOfStep(events, org, ReportStart(period, now)));
  }

  /** Every pricing-page visitor visited the website, so the second step's
      share lies between 0 and 100. */
  lemma PricingVisitorsVisited(events: seq<Event>, org: OrgId, start: int)
    ensures StepUsers(events, org, start, FUNNEL_STEPS[1]) <= StepUsers(events, org, start, FUNNEL_STEPS[0])
    ensures 0.0 <= Percentage(StepUsers(events, org, start, FUNNEL_STEPS[1]), StepUsers(events, org, start, FUNNEL_STEPS[0])) <= 100.0
  {
    DistinctMonotone(events, StepMatches(org, start, FUNNEL_STEPS[1]), StepMatches(org, start, FUNNEL_STEPS[0]),
                     Analytics.AddedUser);
  }

  // ---------------------------------------------------------------- tenant isolation

  /** Events of other organisations change neither report. */
  lemma ReportsTenantIsolation(events: seq<Event>, foreign: seq<Event>, org: OrgId, period: Option<string>, now: int,
                               monthOf: int -> YearMonth)
    requires forall e :: e in foreign ==> e.organization != org
    ensures GetBusinessOverview(events + foreign, org, period, now, monthOf) == GetBusinessOverview(events, org, period, now, monthOf)
    ensures GetUserActivityReport(events + foreign, org, period, now) == GetUserActivityReport(events, org, period, now)
  {
    var start := ReportStart(period, now);
    FilterIgnores(events, foreign, IsRevenueEvent(org, start));
    FilterIgnores(events, foreign, Analytics.Since(org, start));
    FilterIgnores(events, foreign, IsPurchase(org, start));
    FilterIgnores(events, foreign, IsProductOrder(org, start));
    FilterIgnores(events, foreign, IsOrder(org, start));
    FilterIgnores(events, foreign, IsSessionView(org, start));
    FilterIgnores(events, foreign, IsPageView(org, start));
    FilterIgnores(events, foreign, IsPageViewOfPage(org, start));
    FilterIgnores(events, foreign, HasDevice(org, start));
  }

  /** Events of other organisations change no funnel step's users. */
  lemma FunnelTenantIsolation(events: seq<Event>, foreign: seq<Event>, org: OrgId, start: int, step: FunnelStep)
    requires forall e :: e in foreign ==> e.organization != org
    ensures StepUsers(events + foreign, org, start, step) == StepUsers(events, org, start, step)
  {
    FilterIgnores(events, foreign, StepMatches(org, start, step));
  }
}
