/** The `Event` document (backend/models/Event.js): field constraints,
    defaults, and the validation a create goes through. */
module EventSchema {
  import opened JsValues
  import opened JsStrings

  /** Organisation ids are compared by their string form. */
  type OrgId = string

  const NAME_MAX_LENGTH: nat := 100
  const NAME_REQUIRED_MESSAGE := "Please add an event name"
  const NAME_TOO_LONG_MESSAGE := "Event name cannot be more than 100 characters"
  const ORGANIZATION_REQUIRED_MESSAGE := "Path `organization` is required."

  /** The fixed set of optional client-context strings. */
  datatype Metadata = Metadata(
    browser: Field<string>,
    device: Field<string>,
    os: Field<string>,
    ip: Field<string>,
    country: Field<string>,
    referrer: Field<string>,
    url: Field<string>)

  const NO_METADATA := Metadata(Absent, Absent, Absent, Absent, Absent, Absent, Absent)

  /** A stored event. Times are milliseconds since the epoch. */
  datatype Event = Event(
    name: string,
    organization: OrgId,
    userId: Field<string>,
    sessionId: Field<string>,
    properties: map<string, Value>,
    metadata: Metadata,
    timestamp: int,
    createdAt: int,
    updatedAt: int)

  /** A create request body restricted to the schema's paths (strict mode
      drops any other key). `None` is a path left undefined. */
  datatype EventBody = EventBody(
    name: Option<string>,
    organization: Option<OrgId>,
    userId: Field<string>,
    sessionId: Field<string>,
    properties: Option<map<string, Value>>,
    metadata: Metadata,
    timestamp: Option<int>)

  /** The schema's invariant on a stored event's name: required after
      trimming, at most 100 UTF-16 code units, no surrounding whitespace. */
  predicate ValidName(name: string) {
    0 < |name| && Utf16Length(name) <= NAME_MAX_LENGTH && !IsWhitespace(name[0]) && !IsWhitespace(name[|name| - 1])
  }

  predicate ValidEvent(e: Event) {
    ValidName(e.name)
  }

  /** Messages of the failing `name` validators: `required` (also for a name
      that trims to empty), then `maxlength` on the trimmed value. */
  function NameErrors(name: Option<string>): (errors: seq<string>)
    ensures errors == [] <==> name.Some? && ValidName(Trim(name.value))
    ensures ORGANIZATION_REQUIRED_MESSAGE !in errors
  {
    match name
    case None => [NAME_REQUIRED_MESSAGE]
    case Some(raw) =>
      var t := Trim(raw);
      if t == "" then [NAME_REQUIRED_MESSAGE]
      else if Utf16Length(t) > NAME_MAX_LENGTH then [NAME_TOO_LONG_MESSAGE]
      else []
  }

  /** `Event.create(body)` up to the write: trim the name, validate in
      schema order, and fill `properties` with `{}` and `timestamp` (and the
      `timestamps: true` pair) with the creation time `now`. */
  function Create(body: EventBody, now: int): (r: Result<Event>)
    ensures r.Ok? <==> body.name.Some? && ValidName(Trim(body.name.value)) && body.organization.Some?
    ensures r.Ok? ==> ValidEvent(r.value)
    ensures r.Ok? ==> r.value == Event(Trim(body.name.value), body.organization.value,
                                       body.userId, body.sessionId,
                                       body.properties.GetOr(map[]), body.metadata,
                                       body.timestamp.GetOr(now), now, now)
    ensures r.Invalid? ==> |r.messages| > 0
    ensures r.Invalid? ==> (body.organization.None? <==> ORGANIZATION_REQUIRED_MESSAGE in r.messages)
  {
    var nameErrors := NameErrors(body.name);
    var orgErrors := if body.organization.None? then [ORGANIZATION_REQUIRED_MESSAGE] else [];
    var errors := nameErrors + orgErrors;
    assert ORGANIZATION_REQUIRED_MESSAGE in errors <==> ORGANIZATION_REQUIRED_MESSAGE in orgErrors;
    if errors != [] then Invalid(errors)
    else
      Ok(Event(Trim(body.name.value), body.organization.value, body.userId, body.sessionId,
               body.properties.GetOr(map[]), body.metadata, body.timestamp.GetOr(now), now, now))
  }

  /** The body a stored event would be re-submitted as. */
  function BodyOf(e: Event): EventBody {
    EventBody(Some(e.name), Some(e.organization), e.userId, e.sessionId,
              Some(e.properties), e.metadata, Some(e.timestamp))
  }

  /** A valid stored event passes validation again unchanged: re-creating it
      from its own fields gives back the same event (with fresh bookkeeping times). */
  lemma CreateOfValid(e: Event, now: int)
    requires ValidEvent(e)
    ensures Create(BodyOf(e), now) == Ok(e.(createdAt := now, updatedAt := now))
  {
    TrimOfTrimmed(e.name);
  }

  /** `maxlength` counts UTF-16 code units: 51 or more emoji are over
      100 of them, so the name is refused as too long. */
  lemma AstralNameTooLong(n: nat)
    requires n >= 51
    ensures NameErrors(Some(seq(n, _ => '\U{1F600}'))) == [NAME_TOO_LONG_MESSAGE]
  {
    var name := seq(n, _ => '\U{1F600}');
    assert name[0] == '\U{1F600}' && name[n - 1] == '\U{1F600}';
    Utf16LengthOfRepeated('\U{1F600}', n);
    TooLongName(name);
  }

  /** A name without surrounding whitespace and over 100 UTF-16 code units
      gets exactly the `maxlength` message. */
  lemma TooLongName(name: string)
    requires 0 < |name| && !IsWhitespace(name[0]) && !IsWhitespace(name[|name| - 1])
    requires Utf16Length(name) > NAME_MAX_LENGTH
    ensures NameErrors(Some(name)) == [NAME_TOO_LONG_MESSAGE]
  {
    TrimOfTrimmed(name);
  }

  /** A name that is only whitespace is rejected as missing. */
  lemma BlankNameRejected(body: EventBody, now: int)
    requires body.name.Some? && forall i :: 0 <= i < |body.name.value| ==> IsWhitespace(body.name.value[i])
    ensures Create(body, now).Invalid?
    ensures NAME_REQUIRED_MESSAGE in Create(body, now).messages
  {
    TrimOfBlank(body.name.value);
    assert NameErrors(body.name) == [NAME_REQUIRED_MESSAGE];
  }
}
