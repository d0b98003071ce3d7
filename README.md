# Intellica analytics core in Dafny

Intellica is a multi-tenant web-analytics service. Client sites send events,
such as page views, sign-ups and purchases, tagged with their organisation.
Each organisation's users then read reports computed over its own events.
This project models that core and proves what the reports, helpers and
guards promise:

- **Event store and reports.** Modelled as functions over a finite `seq<Event>`:
  - the event list with its filter builder and pagination;
  - the dashboard overview and the user-count metric (`analytics.js`);
  - the business overview, user-activity report and five-step conversion funnel (`reports.js`).

  The store operators become small generic functions (module `Aggregation`):
  - `$match` is `Filter`;
  - `distinct` and `$addToSet`+`$size` are `Distinct`;
  - `$group` is `GroupKeys`/`CountBuckets`;
  - `$sort`+`$limit` is `SortDesc`/`TopK`;
  - `.skip().limit()` is `SkipLimit`.
- **Tenant isolation.** Adding another organisation's events changes no
  report. A user operation of one organisation leaves every other
  organisation's existing users unchanged, though an update naming another
  organisation can move a user into it (`Users.UpdateCanMoveUser`).
- **Schemas.** `Event` and `Organization` validation and defaults, the
  pre-save hook that issues an API key, and the unique index on that key.
- **Small pure pieces.**
  - period switches (`Periods`);
  - backend helpers (`Helpers`);
  - the central error formatter (`ErrorHandler`);
  - the frontend string helpers (`Text`);
  - the role checks of the session context (`Auth`);
  - the CORS origin check (`Cors`).
- **State changed in place.** These are classes with `modifies` clauses:
  - the user table (`Users.UserStore`);
  - the event collection (`Analytics.EventCollection`);
  - the organisation document's pre-save hook (`OrganizationSchema.OrganizationDocument`);
  - the session state of the frontend (`Auth.AuthState`).

  The funnel loop and `cleanObject` are methods with loop invariants.

How values are represented:
- Times are integers (milliseconds).
- Schema fields that may be missing or `null` are `Field<T> = Absent | Null | Present(v)`.
  - `distinct` and `$addToSet` skip a missing field but keep an explicit `null`.
  - `$exists: true` keeps `null`; `$ne: null` drops it.
- Ratios are exact reals. Where a division by zero is reachable, the result is a `Num` that can be `NaN` or `±Infinity`.

Calendar and local-time arithmetic is not modelled. `setHours`, `setMonth`,
`$month` and `$dateToString` enter as parameters: `dayOf`, `monthOf`, and
the instants of a clock record. The current time `now` and the random bytes
of `crypto.randomBytes` are parameters too.

## Model

| member | source | states |
|---|---|---|
| Periods.OverviewLookbackDays | backend/controllers/reports.js:14-29 | `7d`, `90d`, `12m` look back 7, 90, 365 days; every other token (including `30d`) 30 days |
| Periods.ActivityLookbackDaysAsWritten | backend/controllers/reports.js:169-181 | the activity and funnel switch: `7d` → 7, `90d` → 90, anything else (also `12m`) → 30 |
| Periods.TwelveMonthsIgnoredByActivity | backend/controllers/reports.js:313-325 | `12m` gives 30 days in the activity/funnel switch but 365 in the overview's |
| Periods.ActivityAgreesWithOverviewExceptTwelveMonths | backend/controllers/reports.js:169-181 | the two switches agree on exactly the tokens other than `12m` |
| Periods.ReportStart | backend/controllers/reports.js:8-29 | a report window starts `now` minus the overview's days; an omitted period is `30d`; the start lies between 365 and 7 days back |
| Periods.GetDateRange | backend/utils/helpers.js:102-124 | `endDate` is now, `startDate` is 7/30/90/365 days back for `7d`/`30d`/`90d`/`1y` and 30 otherwise, and always before `endDate` |
| Periods.ParseMetricsPeriod | backend/controllers/analytics.js:221-242 | accepted exactly when the period (default `week`) is `day`, `week`, `month` or `year` |
| Periods.MonthIndexOrder | backend/controllers/reports.js:136 | sorting by month index is sorting by year then month; equal index means the same month |
| Periods.MonthName | backend/controllers/reports.js:113-130 | every month number gets a three-letter label |
| Periods.MonthNameInjective | backend/controllers/analytics.js:166-183 | two months share a label only if they are the same month |
| Aggregation.Filter | backend/controllers/reports.js:33-40 | `$match` keeps exactly the documents satisfying the predicate, no more of them than there were |
| Aggregation.Distinct | backend/controllers/reports.js:52-56 | `distinct` yields exactly the values some selected document has, at most one per document |
| Aggregation.DistinctMonotone | backend/controllers/reports.js:59-68 | a stronger filter never yields a value, or more values, than a weaker one |
| Aggregation.GroupKeys | backend/controllers/reports.js:80-86 | the `$group` ids are exactly the keys present, each once |
| Aggregation.SortDesc | backend/controllers/reports.js:87 | `$sort` descending returns a permutation of its input in non-increasing order |
| Aggregation.TopKSpec | backend/controllers/reports.js:87-88 | `$sort`+`$limit k` keeps at most k input rows, sorted, each scoring at least as high as every row left out |
| Aggregation.TopKLeftOut | backend/controllers/analytics.js:115-120 | a row the limit leaves out scores no higher than any row it keeps |
| Aggregation.GroupCountTotal | backend/controllers/analytics.js:109-114 | the `$sum: 1` counts of a `$group`, in any order, add up to the number of grouped documents |
| Aggregation.SumPermutation | backend/controllers/reports.js:44 | a `$sum` does not depend on the order of the documents |
| Aggregation.FilterIgnores | backend/controllers/reports.js:35 | appending documents the `$match` rejects leaves its result unchanged |
| Aggregation.SkipLimit | backend/controllers/analytics.js:44-47 | skip first, then keep `abs(limit)` documents (all when 0): the exact length and the slice returned |
| Analytics.StampedOrganizationWins | backend/controllers/analytics.js:6-9 | the stored organisation is the caller's, whatever the body named; nothing else in the body matters for it |
| Analytics.EventCollection.TrackEvent | backend/controllers/analytics.js:3-18 | a valid body is appended with status 201; an invalid one gives 400 with the joined messages and leaves the store unchanged |
| Analytics.BuildFilter | backend/controllers/analytics.js:31-40 | the query always holds the caller's organisation and adds name, user and date bounds only for supplied parameters; it selects exactly the parameters' events |
| Analytics.QueryObjectSelects | backend/controllers/analytics.js:44 | the store finds through the built query exactly the events the parameters select |
| Analytics.NewestFirst | backend/controllers/analytics.js:45 | the events reordered, newest first |
| Analytics.EventCollection.GetEvents | backend/controllers/analytics.js:20-64 | one page of the caller's matching events, newest first, at most `limit` of them; total and `pages = ceil(total/limit)`; a negative skip is a 500 |
| Analytics.PageOfMatching | backend/controllers/analytics.js:44-47 | a page holds only matching events, newest first |
| Analytics.GetOverview | backend/controllers/analytics.js:66-216 | today's distinct users never exceed today's events; at most five top events |
| Analytics.OverviewWindowsNested | backend/controllers/analytics.js:70-99 | with nested instants, events today ≤ this week ≤ this month |
| Analytics.TopEventsCounts | backend/controllers/analytics.js:102-121 | each top-event row counts exactly the week's events of its name, at least one |
| Analytics.TopEventsBusiest | backend/controllers/analytics.js:115-120 | a name left out of the top five occurs no more often than any name kept |
| Analytics.TopEventsTotal | backend/controllers/analytics.js:115-121 | top events are busiest first and count no more than the week's events |
| Analytics.DailyEventsOrdered | backend/controllers/analytics.js:124-145 | daily buckets come earliest day first, each counting its day's events |
| Analytics.DailyEventsCover | backend/controllers/analytics.js:131-141 | every day with an event has a bucket; the buckets add up to the week's events |
| Analytics.MonthlyUsersOrdered | backend/controllers/analytics.js:148-190 | monthly rows come earliest month first, labelled with their month, users bounded by the month's events |
| Analytics.MonthlyUsersCover | backend/controllers/analytics.js:155-163 | every month with an event in the window has a row |
| Analytics.SinceIgnoresForeign | backend/controllers/analytics.js:77-80 | other organisations' events drop out of every window |
| Analytics.OverviewTenantIsolation | backend/controllers/analytics.js:66-216 | adding other organisations' events leaves the overview unchanged |
| Analytics.GetUserMetrics | backend/controllers/analytics.js:218-261 | 400 "Invalid period specified" exactly for an unknown period; otherwise 200 with the distinct non-null users since the period's start |
| Analytics.UsersSince | backend/controllers/analytics.js:244-248 | distinct non-null users never exceed the events counted |
| Analytics.UserMetricsMonotone | backend/controllers/analytics.js:226-236 | a longer period never counts fewer users: day ≤ week ≤ month ≤ year |
| Reports.Percentage | backend/controllers/reports.js:142 | 0 for an empty whole; a part of its whole lies in [0, 100] |
| Reports.PercentageOfWhole | backend/controllers/reports.js:279 | for a non-zero whole the percentage times the whole is 100 times the part |
| Reports.AverageOrderValueSpec | backend/controllers/reports.js:43-46 | the average order value is total revenue over the orders with a numeric amount, both 0 without such orders |
| Reports.ConversionRate | backend/controllers/reports.js:59-68 | purchasers over visitors as a percentage, within [0, 100] because purchasers are visitors |
| Reports.CustomersAreVisitors | backend/controllers/reports.js:52-62 | the distinct non-null customers are visitors of the window, so there are no more of them |
| Reports.TopProducts | backend/controllers/reports.js:87-88 | at most five product rows |
| Reports.TopProductsSpec | backend/controllers/reports.js:71-89 | product rows by revenue descending; each row's units are its product's orders (at least one) and its revenue their summed amounts |
| Reports.TopProductsEarnMost | backend/controllers/reports.js:87-88 | no product left out earned more than a product kept |
| Reports.ProductOrdersArePurchases | backend/controllers/reports.js:75 | the ranking counts `purchase`/`purchase_completed` with a product, never `payment_success`, which total revenue does count |
| Reports.RevenueByMonthSpec | backend/controllers/reports.js:92-137 | monthly rows earliest first, labelled, with the month's orders, customers and summed amounts |
| Reports.GetBusinessOverview | backend/controllers/reports.js:5-159 | the conversion rate lies in [0, 100]; at most five top products |
| Reports.BouncedAreSessions | backend/controllers/reports.js:184-188 | every bounced session is one of the counted sessions |
| Reports.BounceRate | backend/controllers/reports.js:285 | bounced sessions over sessions as the bounce-rate helper computes it, within [0, 100] |
| Reports.BounceRateAsWrittenExceedsHundred | backend/controllers/reports.js:204-222 | one session with one view plus a view with a `null` session gives a bounce rate of 200 |
| Reports.BounceRateOfExample | backend/controllers/reports.js:204-222 | on the same views the corrected bounce rate is 100 |
| Reports.TopPages | backend/controllers/reports.js:248-249 | at most ten pages |
| Reports.TopPagesSpec | backend/controllers/reports.js:225-250 | most viewed first; each row's views are its page's views (at least one), unique viewers at most views, fixed average time |
| Reports.TopPagesMostViewed | backend/controllers/reports.js:248-249 | no page left out has more views than a page kept |
| Reports.DeviceSharesBounded | backend/controllers/reports.js:253-280 | each device's users are visitors of the window, so its share lies in [0, 100] |
| Reports.DevicesCovered | backend/controllers/reports.js:261-266 | every device seen in the window has a row |
| Reports.PageViewsPerSession | backend/controllers/reports.js:286 | 0 without sessions, otherwise the quotient of views by sessions |
| Reports.GetUserActivityReport | backend/controllers/reports.js:161-303 | the corrected report (the overview's window, null sessions not bouncing): bounce rate in [0, 100], at most ten top pages, fixed average session time |
| Reports.FunnelPercentageAsWritten | backend/controllers/reports.js:356 | step 0 is 100; a later step over a non-empty first step is its percentage |
| Reports.FunnelPercentageWithEmptyFirstStep | backend/controllers/reports.js:356 | with no first-step users a later step's share is NaN (no users) or Infinity (some), where the guarded percentage is 0 |
| Reports.BuildFunnel | backend/controllers/reports.js:336-358 | the corrected loop: one row per step in order with its users; step 0 at 100, later steps their percentage of step 0, 0 when step 0 is empty |
| Reports.GetConversionFunnel | backend/controllers/reports.js:305-369 | the corrected funnel (the overview's window, a 0 share for an empty step 0): five rows, the fixed steps in order, each with its distinct users; step 0 at 100, later steps a percentage of step 0 |
| Reports.PricingVisitorsVisited | backend/controllers/reports.js:329-330 | pricing visitors are website visitors, so the second step's share lies in [0, 100] |
| Reports.ReportsTenantIsolation | backend/controllers/reports.js:33-273 | other organisations' events change neither the business overview nor the activity report |
| Reports.FunnelTenantIsolation | backend/controllers/reports.js:340-351 | other organisations' events change no funnel step's users |
| Helpers.CalculatePercentageChange | backend/utils/helpers.js:150-153 | 100 or 0 from a zero previous value by the sign of current; otherwise the change relative to previous, in percent |
| Helpers.PercentageChangeSign | backend/utils/helpers.js:150-153 | from a positive previous value, growth is positive and no change is 0 |
| Helpers.CalculateBounceRate | backend/utils/helpers.js:156-159 | 0 without sessions, otherwise bounces as a percentage of sessions |
| Helpers.BounceRateBounded | backend/utils/helpers.js:156-159 | no more bounces than sessions gives a rate in [0, 100] |
| Helpers.SessionParts | backend/utils/helpers.js:169-171 | whole minutes and seconds below 60 that make up the average, to the second |
| Helpers.CalculateAverageSessionTime | backend/utils/helpers.js:167-173 | `0m 0s` without sessions, otherwise `{m}m {s}s` of the average |
| Helpers.AverageSessionTimeReadsBack | backend/utils/helpers.js:172 | the numbers in the label parse back as the minutes and seconds |
| Helpers.IsValidEmailShape | backend/utils/helpers.js:40-43 | accepted exactly when the address reads L@D1.D2 with non-empty parts free of whitespace and `@` |
| Helpers.OrDefault | backend/utils/helpers.js:191-192 | `parseInt(x) \|\| d`: the parsed value unless NaN or 0 |
| Helpers.GetPaginationParams | backend/utils/helpers.js:190-196 | page and limit are never 0, default to 1 and 10, and skip is `(page-1)*limit` |
| Helpers.PaginationParamsOfNumerals | backend/utils/helpers.js:191-193 | rendered positive page and limit come back unchanged |
| Helpers.PaginationParamsDefaults | backend/utils/helpers.js:190-196 | no parameters give page 1 of 10, skip 0 |
| Helpers.BuildPaginationResponse | backend/utils/helpers.js:199-215 | data unchanged, `totalPages = ceil(total/limit)` (Infinity or NaN for a zero limit), a next page exactly when page < totalPages, a previous page exactly when page > 1 |
| Helpers.HasNextPageNonPositiveLimit | backend/utils/helpers.js:190-201 | for a negative limit a next page exactly when `page*limit > total`; for a zero limit exactly when there are items |
| Helpers.HasNextPageMeansMoreItems | backend/utils/helpers.js:200-201 | for a positive limit there is a next page exactly when `page*limit < total` |
| Helpers.CleanObject | backend/utils/helpers.js:250-258 | keeps exactly the properties whose value is neither `null` nor `undefined`, in order, values unchanged |
| Helpers.CleanedIdempotent | backend/utils/helpers.js:250-258 | cleaning a cleaned object changes nothing |
| ErrorHandler.HandleError | backend/middleware/error.js:1-30 | never `success`; 400 joined messages for a validation error, else 400 for code 11000, else 404 for a cast error, else 500 "Server Error" |
| EventSchema.NameErrors | backend/models/Event.js:4-9 | no message exactly when a name is given and trims to a non-empty name of at most 100 UTF-16 code units (JavaScript's `length`); never the organisation's message |
| EventSchema.TooLongName | backend/models/Event.js:8 | a name without surrounding whitespace over 100 UTF-16 code units gets exactly the `maxlength` message |
| EventSchema.AstralNameTooLong | backend/models/Event.js:8 | a name of 51 or more emoji, at least 102 UTF-16 code units, is refused with the `maxlength` message |
| EventSchema.Create | backend/models/Event.js:3-44 | accepted exactly with a name that trims to a non-empty name of at most 100 UTF-16 code units and an organisation; the stored event has the trimmed name and the defaults; a refusal carries messages |
| EventSchema.CreateOfValid | backend/models/Event.js:4-9 | a valid stored event passes validation again unchanged |
| EventSchema.BlankNameRejected | backend/models/Event.js:6-7 | a whitespace-only name is refused as missing |
| OrganizationSchema.ParsePlan | backend/models/Organization.js:15-19 | a plan exactly for `free`, `startup`, `enterprise`, named as given |
| OrganizationSchema.SettingsWithDefaults | backend/models/Organization.js:20-42 | `UTC`, `MM/DD/YYYY`, tracking on, integration toggles on/on/on/off when not given |
| OrganizationSchema.NameErrors | backend/models/Organization.js:5-10 | no message exactly when a name is given and trims to a non-empty name of at most 50 UTF-16 code units |
| OrganizationSchema.TooLongName | backend/models/Organization.js:9 | a name without surrounding whitespace over 50 UTF-16 code units gets exactly the `maxlength` message |
| OrganizationSchema.AstralNameTooLong | backend/models/Organization.js:9 | a name of 26 or more emoji, at least 52 UTF-16 code units, is refused with the `maxlength` message |
| OrganizationSchema.PlanErrors | backend/models/Organization.js:15-19 | no message exactly when the plan is missing or one of the three enumerated names |
| OrganizationSchema.Create | backend/models/Organization.js:4-53 | accepted exactly with a name trimming to a non-empty name of at most 50 UTF-16 code units and a valid plan; trimmed name, plan default `free`, settings defaults |
| OrganizationSchema.HexEncode | backend/models/Organization.js:58 | two hex digits per byte |
| OrganizationSchema.HexRoundTrip | backend/models/Organization.js:58 | decoding the hex key gives back the random bytes |
| OrganizationSchema.WithApiKey | backend/models/Organization.js:56-61 | a missing or empty key is replaced by the hex of the random bytes; an existing one is kept |
| OrganizationSchema.WithApiKeyIdempotent | backend/models/Organization.js:56-61 | saving again keeps the first key, which has 32 characters |
| OrganizationSchema.OrganizationDocument.PreSave | backend/models/Organization.js:56-61 | the document afterwards holds a non-empty key, the old one when there was one |
| OrganizationSchema.SavePreservesUniqueKeys | backend/models/Organization.js:11-14 | an invalid body fails validation; a valid one fails with code 11000 exactly when its issued key is taken, and is otherwise appended with that key, keeping keys unique |
| Users.MalformedIdAnswer | backend/middleware/error.js:9-12 | the error handler answers a malformed id's CastError with 404 "Resource not found" |
| Users.Guard | backend/controllers/users.js:20-36 | a malformed id fails with the CastError's 404 first, then 404 for a missing id before 403 for another organisation's user; no error exactly for the caller's own user under a well-formed id |
| Users.OfOrganization | backend/controllers/users.js:6 | exactly the users of the organisation, unchanged |
| Users.ApplyPatch | backend/controllers/users.js:82-85 | every path of the body overwrites the stored one, `organization` included |
| Users.DeleteRemovesOnlyTarget | backend/controllers/users.js:96-116 | a delete removes the target only, and only when it is the caller's and its id well formed |
| Users.MalformedIdChangesNothing | backend/controllers/users.js:18-125 | a malformed id is answered 404 "Resource not found" and leaves the table unchanged for update and delete |
| Users.CrossTenantUnchanged | backend/controllers/users.js:75-80 | an update or delete of another organisation's user changes nothing |
| Users.OtherTenantsPreserved | backend/controllers/users.js:62-116 | no update or delete touches another organisation's users |
| Users.UpdateCanMoveUser | backend/controllers/users.js:82 | an update naming another organisation moves the user out of the caller's reach |
| Users.UserStore.GetUsers | backend/controllers/users.js:3-16 | 200 with exactly the caller's organisation's users |
| Users.UserStore.GetUser | backend/controllers/users.js:18-45 | 404 "Resource not found" for a malformed id, 404 for a missing id, 403 for another organisation's user, otherwise 200 with the user |
| Users.UserStore.CreateUser | backend/controllers/users.js:47-61 | 201; the new user is stored under a fresh id with the caller's organisation |
| Users.UserStore.UpdateUser | backend/controllers/users.js:62-94 | the table after the guard and patch, and the guard's error or the updated user |
| Users.UserStore.DeleteUser | backend/controllers/users.js:96-125 | the table after the guarded removal, and the guard's error or success |
| Text.TruncateText | frontend/src/utils/helpers.js:24-28 | `''` for a missing or empty text, the text when it fits, otherwise its first n characters and `...`, n + 3 in all |
| Text.TruncateTextIdempotent | frontend/src/utils/helpers.js:24-28 | truncating again to the same length changes nothing |
| Text.Capitalize | frontend/src/utils/helpers.js:43-46 | `''` for a missing or empty string; otherwise same length, first character upper-cased, the rest unchanged |
| Text.CapitalizeIdempotent | backend/utils/helpers.js:232-235 | capitalising twice is capitalising once |
| Text.FormatNumberRemoveCommas | frontend/src/utils/helpers.js:35-37 | only commas are inserted: removing them gives the number's string back |
| Text.CommaAtInDigits | frontend/src/utils/helpers.js:36 | in a digit string a comma goes before each position a multiple of three from the end, except the first |
| Text.FormatNumberOfDigits | frontend/src/utils/helpers.js:36 | on digits the result is the reference grouping: a first group of 1-3 digits, then groups of three |
| Text.FormatNonNegativeInteger | backend/utils/helpers.js:176-178 | for a non-negative integer both of the above hold |
| Text.FormatNumberGroupsFraction | frontend/src/utils/helpers.js:36 | `1234.5678` becomes `1,234.5,678` |
| Text.FormatNumberCorrected | frontend/src/utils/helpers.js:35-37 | groups the part before the decimal point only; commas removed give the input back |
| Text.FormatNumberCorrectedKeepsFraction | frontend/src/utils/helpers.js:36 | `1234.5678` becomes `1,234.5678` |
| Auth.HasRole | frontend/src/context/AuthContext.jsx:87-92 | no role holds without a signed-in user |
| Auth.DerivationsAgreeWithHasRole | frontend/src/context/AuthContext.jsx:84-86 | `isAdmin`, `isAnalyst` and `isAuthenticated` are `hasRole` of admin, analyst and any other role |
| Auth.RoleHierarchy | frontend/src/context/AuthContext.jsx:88-91 | admin has every role, analyst every role but admin, any user every other role |
| Auth.PlainUserRoles | frontend/src/context/AuthContext.jsx:89-91 | a user who is neither admin nor analyst holds exactly the roles other than those two |
| Auth.NoRoleWithoutUser | frontend/src/context/AuthContext.jsx:88 | with no user every role check fails |
| Auth.AuthState.SignedIn | frontend/src/context/AuthContext.jsx:41-44 | a successful sign-in stores the token and the user |
| Auth.AuthState.Logout | frontend/src/context/AuthContext.jsx:70-73 | token and user cleared; no role, admin, analyst or authenticated check passes afterwards |
| Cors.OriginDecisionAsWritten | backend/server.js:37-52 | allowed exactly for no origin, a listed origin, or one containing `.vercel.app`; otherwise the CORS error |
| Cors.OriginDecision | backend/server.js:30-52 | allowed exactly for no origin, a listed origin, or one ending in `.vercel.app` |
| Cors.IntendedIsStricter | backend/server.js:47-49 | the suffix check allows nothing the substring check refuses, and they agree without `.vercel.app` |
| Cors.ListedOriginsAllowed | backend/server.js:30-44 | every listed origin, and a request without one, is allowed |
| Cors.PreviewDeploymentAllowed | backend/server.js:47-49 | a real `vercel.app` preview deployment passes both the written and the intended check |
| Cors.LookalikeOriginAllowed | backend/server.js:47-49 | `https://a.vercel.app.evil.com` passes the written check and fails the intended one |
| JsStrings.TrimIdempotent | backend/models/Event.js:7 | trimming twice is trimming once |
| JsStrings.ParseIntOfIntToString | backend/utils/helpers.js:191-192 | `parseInt` reads back every rendered integer, in exact arithmetic |
| JsValues.Div | backend/controllers/reports.js:356 | a division is finite exactly for a non-zero divisor; 0/0 is NaN and a positive number over 0 is Infinity |
| JsValues.Ceil | backend/controllers/analytics.js:57 | `Math.ceil` of a finite number is the least integer not below it; NaN and infinities pass through |

## Left out

- JWT issuing, bcrypt, `crypto` (beyond taking its random bytes as a parameter), `mongoose.Types.ObjectId` and the script-stripping regex of `sanitizeInput`: foreign libraries.
- The response helpers, console logging, server start-up and the routes: HTTP and process I/O.
- Cross-request concurrency and consistency between the sub-queries of one report: the model is sequential.
- The document store's driver: queries are functions over `seq<Event>`. Nested property paths and array matching in queries are not modelled.
- Calendar and local-time arithmetic (`setHours`, `setMonth`, `setFullYear`, `$month`, `$year`, `$dateToString`): passed in as parameters.
- Analytics.GetOverview: does not state that its instants are midnight today, a week and a month back. They are parameters, and the nesting the counts rely on is a precondition of `OverviewWindowsNested`.
- Reports.GetBusinessOverview: rates and averages are exact reals. `toFixed` rounding, and the string-or-0 typing of the output, are not modelled.
- Reports.GetUserActivityReport: composes the corrected members of "## Findings" (`Periods.ReportStart`, `Reports.BounceRate`), so it does not reproduce the source's 30-day window for `12m` or a bounce rate above 100. As for the business overview, `bounceRate`, `pageViewsPerSession` and the device percentages are exact reals without `toFixed`.
- Reports.GetConversionFunnel: composes the corrected members of "## Findings" (`Periods.ReportStart`, `Reports.Percentage` through `Reports.BuildFunnel`), so it does not reproduce the source's 30-day window for `12m` or the NaN/Infinity shares of an empty step 0; the as-written share is `Reports.FunnelPercentageAsWritten`. The later steps' `toFixed(1)` strings are exact reals. The store query of each step is bound once as a function of the step, and the awaits inside the loop are not modelled.
- `$sort` order among equal scores is unspecified in the store. The model's sort is one fixed (stable insertion) order. The ranking contracts state order, permutation and the top-k property, which hold for any tie order.
- Analytics.EventCollection.GetEvents: the page is stated as a slice of `NewestFirst`, which fixes one order among events with equal timestamps; the store may page such events in another order. `Analytics.PageOfMatching` states what holds for any order.
- `$addToSet`, like `distinct`, is taken to skip a missing field and keep an explicit `null`.
- Analytics.EventCollection.GetEvents: the query string arrives as integers. A non-numeric `limit` or `page` is not modelled, and neither is the parsing of dates.
- Users.UserStore.CreateUser: the User schema, its validation and password hashing are not part of this model. The store-generated id is a parameter.
- Users.UserStore.UpdateUser: `runValidators` on the patch is not modelled.
- JsStrings.ParseInt, JsStrings.ParseIntOfIntToString, Helpers.GetPaginationParams: integers are exact. JavaScript numbers are doubles, so `parseInt` rounds beyond 2^53 (`parseInt("9007199254740993")` is 9007199254740992) and `(page-1)*limit` can round too; the round trip holds only up to 2^53.
- Users.IsObjectIdString: a castable id is taken to be 24 hexadecimal digits, as current drivers accept; the 12-byte string form of older drivers is not modelled.
- Text.UpperCase, Text.Capitalize: map ASCII letters only. JavaScript's `toUpperCase` also maps other letters (`é` to `É`) and can lengthen the text (`ß` to `SS`); the model leaves such a first character unchanged.
- Text.TruncateText: lengths and the cut count characters (Unicode scalar values), while JavaScript's `length` and `substring` count UTF-16 code units. The two agree inside the Basic Multilingual Plane (`JsStrings.Utf16LengthOfBmp`). A character outside it counts 1 here and 2 in JavaScript, and JavaScript can cut a surrogate pair in half, which a Dafny string cannot hold.
- JsStrings.Utf16Length: strings are sequences of Unicode scalar values, so the lone surrogates a JavaScript string may hold cannot occur in the model.
- Text.FormatNumber: takes the number's `toString()` as input. Rendering a number (exponent notation and so on) is not modelled.
- Auth.AuthState.SignedIn: the network requests of `login`/`register`, their error messages and the `loading` flag are not modelled, nor is the mount-time check that asks `/auth/me` for the stored token's user and removes the token when that fails (the constructor takes the initial state as given). Only the state a successful answer leaves is.
- Cors.OriginDecision: the other CORS options (methods, headers, credentials, preflight) are not modelled.
- `isValidObjectId`, `isStrongPassword`, `formatDateISO`, `getStartOfDay`/`getEndOfDay`, `formatPercentage`, `generateSessionId`, `generateRandomString`, `deepClone`: dates, floating-point formatting, randomness or JSON round-trips outside the analytics core.

## Findings

| source | as written | input that shows it | evidently intended | confidence | as-written member | corrected member |
|---|---|---|---|---|---|---|
| backend/controllers/reports.js:356 | the guard tests that the first row exists, not that it has users | no first-step users and k later-step users: 0/0 is NaN (k = 0), k/0 is Infinity (k > 0) | a 0 share when the first step is empty | high, not executed | Reports.FunnelPercentageWithEmptyFirstStep | Reports.GetConversionFunnel |
| backend/controllers/reports.js:204-222 | the bounce `$match` keeps `sessionId: null` views, while the session count drops them | one session `a` with one page view plus one page view with `sessionId: null`: bounceRate 200 | only the counted sessions can bounce, so the rate is at most 100 | high, not executed | Reports.BounceRateAsWrittenExceedsHundred | Reports.BounceRate |
| backend/controllers/reports.js:169-181 | the activity and funnel switches have no `12m` case although the reports page offers it | period `12m`: a 30-day window | 365 days, as in the business overview | medium, not executed | Periods.TwelveMonthsIgnoredByActivity | Periods.ReportStart |
| backend/server.js:47-49 | any origin containing `.vercel.app` is allowed | `https://a.vercel.app.evil.com` | only hosts under `vercel.app`, i.e. origins ending in `.vercel.app` | high, not executed | Cors.LookalikeOriginAllowed | Cors.OriginDecision |
| frontend/src/utils/helpers.js:36 | the lookahead is not tied to the integer part | `1234.5678` becomes `1,234.5,678` | group the integer part only: `1,234.5678` | medium, not executed | Text.FormatNumberGroupsFraction | Text.FormatNumberCorrected |
