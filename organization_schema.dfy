/** The `Organization` document (backend/models/Organization.js): its
    constraints and defaults, the pre-save hook that issues an API key, and
    the unique index on that key. */
module OrganizationSchema {
  import opened JsValues
  import opened JsStrings
  import ErrorHandler

  newtype byte = x: int | 0 <= x < 256

  const NAME_MAX_LENGTH: nat := 50
  const NAME_REQUIRED_MESSAGE := "Please add an organization name"
  const NAME_TOO_LONG_MESSAGE := "Name can not be more than 50 characters"
  /** `crypto.randomBytes(16)`: the API key is these bytes in hex. */
  const API_KEY_BYTES: nat := 16

  datatype Plan = Free | Startup | Enterprise

  function PlanName(p: Plan): string {
    match p
    case Free => "free"
    case Startup => "startup"
    case Enterprise => "enterprise"
  }

  /** The `enum` validator: the plan whose name is `s`, if any. */
  function ParsePlan(s: string): (p: Option<Plan>)
    ensures p.Some? <==> s in {"free", "startup", "enterprise"}
    ensures p.Some? ==> PlanName(p.value) == s
  {
    if s == "free" then Some(Free)
    else if s == "startup" then Some(Startup)
    else if s == "enterprise" then Some(Enterprise)
    else None
  }

  datatype Integrations = Integrations(
    enableTracking: bool,
    trackPageViews: bool,
    trackClicks: bool,
    enableGoogleAnalytics: bool,
    googleAnalyticsId: Option<string>)

  datatype Settings = Settings(
    trackingEnabled: bool,
    customDomain: Option<string>,
    logoUrl: Option<string>,
    primaryColor: Option<string>,
    timezone: string,
    dateFormat: string,
    integrations: Integrations,
    updatedAt: Option<int>,
    updatedBy: Option<string>)

  datatype Organization = Organization(
    name: string,
    apiKey: Option<string>,
    plan: Plan,
    settings: Settings,
    createdAt: int)

  /** A create body restricted to the schema's paths; `None` is undefined. */
  datatype SettingsBody = SettingsBody(
    trackingEnabled: Option<bool>,
    customDomain: Option<string>,
    logoUrl: Option<string>,
    primaryColor: Option<string>,
    timezone: Option<string>,
    dateFormat: Option<string>,
    enableTracking: Option<bool>,
    trackPageViews: Option<bool>,
    trackClicks: Option<bool>,
    enableGoogleAnalytics: Option<bool>,
    googleAnalyticsId: Option<string>,
    updatedAt: Option<int>,
    updatedBy: Option<string>)

  datatype OrganizationBody = OrganizationBody(
    name: Option<string>,
    apiKey: Option<string>,
    plan: Option<string>,
    settings: SettingsBody,
    createdAt: Option<int>)

  /** The settings sub-document with every default applied. */
  function SettingsWithDefaults(b: SettingsBody): (s: Settings)
    ensures b.timezone.None? ==> s.timezone == "UTC"
    ensures b.dateFormat.None? ==> s.dateFormat == "MM/DD/YYYY"
    ensures b.trackingEnabled.None? ==> s.trackingEnabled
    ensures b.enableTracking.None? ==> s.integrations.enableTracking
    ensures b.trackPageViews.None? ==> s.integrations.trackPageViews
    ensures b.trackClicks.None? ==> s.integrations.trackClicks
    ensures b.enableGoogleAnalytics.None? ==> !s.integrations.enableGoogleAnalytics
  {
    Settings(
      b.trackingEnabled.GetOr(true), b.customDomain, b.logoUrl, b.primaryColor,
      b.timezone.GetOr("UTC"), b.dateFormat.GetOr("MM/DD/YYYY"),
      Integrations(b.enableTracking.GetOr(true), b.trackPageViews.GetOr(true),
                   b.trackClicks.GetOr(true), b.enableGoogleAnalytics.GetOr(false),
                   b.googleAnalyticsId),
      b.updatedAt, b.updatedBy)
  }

  /** Required after trimming, at most 50 UTF-16 code units, no surrounding whitespace. */
  predicate ValidName(name: string) {
    0 < |name| && Utf16Length(name) <= NAME_MAX_LENGTH && !IsWhitespace(name[0]) && !IsWhitespace(name[|name| - 1])
  }

  function NameErrors(name: Option<string>): (errors: seq<string>)
    ensures errors == [] <==> name.Some? && ValidName(Trim(name.value))
  {
    match name
    case None => [NAME_REQUIRED_MESSAGE]
    case Some(raw) =>
      var t := Trim(raw);
      if t == "" then [NAME_REQUIRED_MESSAGE]
      else if Utf16Length(t) > NAME_MAX_LENGTH then [NAME_TOO_LONG_MESSAGE]
      else []
  }

  /** `maxlength` counts UTF-16 code units: 26 or more emoji are over
      50 of them, so the name is refused as too long. */
  lemma AstralNameTooLong(n: nat)
    requires n >= 26
    ensures NameErrors(Some(seq(n, _ => '\U{1F600}'))) == [NAME_TOO_LONG_MESSAGE]
  {
    var name := seq(n, _ => '\U{1F600}');
    assert name[0] == '\U{1F600}' && name[n - 1] == '\U{1F600}';
    Utf16LengthOfRepeated('\U{1F600}', n);
    TooLongName(name);
  }

  /** A name without surrounding whitespace and over 50 UTF-16 code units
      gets exactly the `maxlength` message. */
  lemma TooLongName(name: string)
    requires 0 < |name| && !IsWhitespace(name[0]) && !IsWhitespace(name[|name| - 1])
    requires Utf16Length(name) > NAME_MAX_LENGTH
    ensures NameErrors(Some(name)) == [NAME_TOO_LONG_MESSAGE]
  {
    TrimOfTrimmed(name);
  }

  /** Mongoose's default message for a value outside an `enum`. */
  function PlanErrors(plan: Option<string>): (errors: seq<string>)
    ensures errors == [] <==> (plan.Some? ==> ParsePlan(plan.value).Some?)
  {
    match plan
    case None => []
    case Some(p) => if ParsePlan(p).Some? then [] else ["`" + p + "` is not a valid enum value for path `plan`."]
  }

  /** Validation and defaults of a new organisation, created at `now`. */
  function Create(body: OrganizationBody, now: int): (r: Result<Organization>)
    ensures r.Ok? <==> body.name.Some? && ValidName(Trim(body.name.value))
                       && (body.plan.Some? ==> ParsePlan(body.plan.value).Some?)
    ensures r.Ok? ==> ValidName(r.value.name) && r.value.name == Trim(body.name.value)
    ensures r.Ok? ==> r.value.plan == (if body.plan.None? then Free else ParsePlan(body.plan.value).value)
    ensures r.Ok? ==> r.value.settings == SettingsWithDefaults(body.settings)
    ensures r.Ok? ==> r.value.apiKey == body.apiKey && r.value.createdAt == body.createdAt.GetOr(now)
    ensures r.Invalid? ==> |r.messages| > 0
  {
    var errors := NameErrors(body.name) + PlanErrors(body.plan);
    if errors != [] then Invalid(errors)
    else
      var plan := if body.plan.None? then Free else ParsePlan(body.plan.value).value;
      Ok(Organization(Trim(body.name.value), body.apiKey, plan,
                                  SettingsWithDefaults(body.settings), body.createdAt.GetOr(now)))
  }

  predicate IsHexDigit(c: char) {
    '0' <= c <= '9' || 'a' <= c <= 'f'
  }

  function HexDigit(n: int): (c: char)
    requires 0 <= n < 16
    ensures IsHexDigit(c)
  {
    if n < 10 then (n + '0' as int) as char else (n - 10 + 'a' as int) as char
  }

  function HexValue(c: char): (n: int)
    requires IsHexDigit(c)
    ensures 0 <= n < 16
  {
    if c <= '9' then c as int - '0' as int else c as int - 'a' as int + 10
  }

  /** `buffer.toString('hex')`: two lower-case hex digits per byte. */
  function HexEncode(bytes: seq<byte>): (s: string)
    ensures |s| == 2 * |bytes|
    ensures forall i :: 0 <= i < |s| ==> IsHexDigit(s[i])
  {
    if bytes == [] then []
    else [HexDigit(bytes[0] as int / 16), HexDigit(bytes[0] as int % 16)] + HexEncode(bytes[1..])
  }

  function HexDecode(s: string): seq<byte>
    requires |s| % 2 == 0
    requires forall i :: 0 <= i < |s| ==> IsHexDigit(s[i])
  {
    if s == [] then []
    else [(HexValue(s[0]) * 16 + HexValue(s[1])) as byte] + HexDecode(s[2..])
  }

  /** The hex rendering loses nothing: decoding gives back the bytes. */
  lemma {:induction false} HexRoundTrip(bytes: seq<byte>)
    ensures HexDecode(HexEncode(bytes)) == bytes
  {
    if bytes != [] {
      var s := HexEncode(bytes);
      HexRoundTrip(bytes[1..]);
      assert s[2..] == HexEncode(bytes[1..]);
      assert HexValue(HexDigit(bytes[0] as int / 16)) == bytes[0] as int / 16;
      assert HexValue(HexDigit(bytes[0] as int % 16)) == bytes[0] as int % 16;
    }
  }

  /** The pre-save hook's effect: a missing or empty (falsy) key is replaced
      by the hex of fresh random bytes; any other key is kept. */
  function WithApiKey(o: Organization, randomBytes: seq<byte>): (r: Organization)
    ensures o.apiKey.Some? && o.apiKey.value != "" ==> r == o
    ensures (o.apiKey.None? || o.apiKey.value == "") ==> r == o.(apiKey := Some(HexEncode(randomBytes)))
  {
    if o.apiKey.None? || o.apiKey.value == "" then o.(apiKey := Some(HexEncode(randomBytes))) else o
  }

  /** Saving again keeps the key the first save issued, whatever bytes the
      second save draws. */
  lemma WithApiKeyIdempotent(o: Organization, first: seq<byte>, second: seq<byte>)
    requires |first| == API_KEY_BYTES
    ensures WithApiKey(WithApiKey(o, first), second) == WithApiKey(o, first)
    ensures WithApiKey(o, first).apiKey.Some?
    ensures o.apiKey.None? ==> |WithApiKey(o, first).apiKey.value| == 32
  {
  }

  /** An organisation document whose pre-save hook updates it in place. */
  class OrganizationDocument {
    var data: Organization

    constructor (o: Organization)
      ensures data == o
    {
      data := o;
    }

    /** `pre('save')`; `randomBytes` is what `crypto.randomBytes(16)` returned. */
    method PreSave(randomBytes: seq<byte>)
      requires |randomBytes| == API_KEY_BYTES
      modifies this
      ensures data == WithApiKey(old(data), randomBytes)
      ensures data.apiKey.Some? && data.apiKey.value != ""
    {
      if data.apiKey.None? || data.apiKey.value == "" {
        data := data.(apiKey := Some(HexEncode(randomBytes)));
      }
    }
  }

  /** No two stored organisations share an API key (the `unique` index). */
  predicate UniqueApiKeys(store: seq<Organization>) {
    forall i, j :: 0 <= i < j < |store| ==> store[i].apiKey != store[j].apiKey
  }

  datatype SaveResult = Saved(store: seq<Organization>) | Failed(error: ErrorHandler.JsError)

  /** `Organization.create(body)`: validate, run the pre-save hook, then
      insert, which the unique index refuses with code 11000 when the key
      is already taken. */
  function Save(store: seq<Organization>, body: OrganizationBody, randomBytes: seq<byte>, now: int): SaveResult {
    match Create(body, now)
    case Invalid(messages) => Failed(ErrorHandler.ValidationError(messages))
    case Ok(o) =>
      var doc := WithApiKey(o, randomBytes);
      if exists i :: 0 <= i < |store| && store[i].apiKey == doc.apiKey then Failed(ErrorHandler.DuplicateKeyError())
      else Saved(store + [doc])
  }

  /** Saving preserves key uniqueness. An invalid body fails validation; a
      valid one is refused with a duplicate key exactly when the issued key
      is already stored, and otherwise appended, keyed, after the stored
      organisations. */
  lemma SavePreservesUniqueKeys(store: seq<Organization>, body: OrganizationBody, randomBytes: seq<byte>, now: int)
    requires UniqueApiKeys(store)
    ensures var r := Save(store, body, randomBytes, now);
      && (Create(body, now).Invalid? ==> r == Failed(ErrorHandler.ValidationError(Create(body, now).messages)))
      && (Create(body, now).Ok? ==>
            (r.Failed? <==> exists i :: 0 <= i < |store| && store[i].apiKey == WithApiKey(Create(body, now).value, randomBytes).apiKey))
      && (r.Saved? ==> r.store == store + [WithApiKey(Create(body, now).value, randomBytes)])
      && (r.Saved? ==> UniqueApiKeys(r.store) && |r.store| == |store| + 1 && r.store[..|store|] == store)
      && (r.Failed? && Create(body, now).Ok? ==>
            r.error.code == Some(ErrorHandler.DUPLICATE_KEY_CODE)
            && exists i :: 0 <= i < |store| && store[i].apiKey == WithApiKey(Create(body, now).value, randomBytes).apiKey)
  {
    match Create(body, now)
    case Invalid(_) =>
    case Ok(o) =>
      var doc := WithApiKey(o, randomBytes);
      if !exists i :: 0 <= i < |store| && store[i].apiKey == doc.apiKey {
        AppendFreshKey(store, doc);
      }
  }

  /** Appending an organisation whose key no stored one has keeps keys unique. */
  lemma AppendFreshKey(store: seq<Organization>, doc: Organization)
    requires UniqueApiKeys(store)
    requires forall i :: 0 <= i < |store| ==> store[i].apiKey != doc.apiKey
    ensures UniqueApiKeys(store + [doc]) && (store + [doc])[..|store|] == store
  {
    var s := store + [doc];
    forall i, j | 0 <= i < j < |s| ensures s[i].apiKey != s[j].apiKey {
      assert s[i] == store[i];
      if j < |store| { assert s[j] == store[j]; }
    }
  }
}
