/** The origin check the server hands to the CORS middleware
    (backend/server.js): which browser origins may call the API. */
module Cors {
  import opened JsValues
  import opened JsStrings

  const ALLOWED_ORIGINS: seq<string> := [
    "http://localhost:5173",
    "http://localhost:3000",
    "https://intellica-frontend.vercel.app"
  ]

  const VERCEL_DOMAIN := ".vercel.app"

  /** What the callback is called with: `callback(null, true)` or an error. */
  datatype Decision = Allow | Reject(message: string)

  const CORS_ERROR := "Not allowed by CORS"

  /** The origin callback as written: no origin (or an empty one), a listed
      origin, or any origin containing `.vercel.app` is let through. */
  function OriginDecisionAsWritten(origin: Option<string>): (d: Decision)
    ensures d.Allow? <==>
      origin.None? || origin.value == "" || origin.value in ALLOWED_ORIGINS || Contains(origin.value, VERCEL_DOMAIN)
    ensures d.Reject? ==> d.message == CORS_ERROR
  {
    if origin.None? || origin.value == "" then Allow
    else if origin.value in ALLOWED_ORIGINS then Allow
    else if Contains(origin.value, VERCEL_DOMAIN) then Allow
    else Reject(CORS_ERROR)
  }

  predicate EndsWith(s: string, suffix: string) {
    |suffix| <= |s| && s[|s| - |suffix|..] == suffix
  }

  /** The origin callback as evidently intended: a Vercel deployment is an
      origin whose host ends in `.vercel.app`. */
  function OriginDecision(origin: Option<string>): (d: Decision)
    ensures d.Allow? <==>
      origin.None? || origin.value == "" || origin.value in ALLOWED_ORIGINS || EndsWith(origin.value, VERCEL_DOMAIN)
    ensures d.Reject? ==> d.message == CORS_ERROR
  {
    if origin.None? || origin.value == "" then Allow
    else if origin.value in ALLOWED_ORIGINS then Allow
    else if EndsWith(origin.value, VERCEL_DOMAIN) then Allow
    else Reject(CORS_ERROR)
  }

  /** The intended check is stricter: whatever it allows, the written one
      allows too, and both agree on every origin without `.vercel.app`. */
  lemma IntendedIsStricter(origin: Option<string>)
    ensures OriginDecision(origin).Allow? ==> OriginDecisionAsWritten(origin).Allow?
    ensures origin.Some? && !Contains(origin.value, VERCEL_DOMAIN) ==>
      OriginDecision(origin) == OriginDecisionAsWritten(origin)
  {
    if origin.Some? && EndsWith(origin.value, VERCEL_DOMAIN) {
      assert OccursAt(origin.value, VERCEL_DOMAIN, |origin.value| - |VERCEL_DOMAIN|);
    }
  }

  /** Every listed origin is allowed, and so is the absence of one. */
  lemma ListedOriginsAllowed(origin: string)
    requires origin in ALLOWED_ORIGINS
    ensures OriginDecisionAsWritten(Some(origin)) == Allow
    ensures OriginDecision(Some(origin)) == Allow
    ensures OriginDecision(None) == Allow
  {
  }

  const LOOKALIKE_ORIGIN := "https://a.vercel.app.evil.com"

  /** A host that merely contains `.vercel.app` passes the written check,
      though it is not a Vercel deployment; the intended check rejects it. */
  lemma LookalikeOriginAllowed()
    ensures OriginDecisionAsWritten(Some(LOOKALIKE_ORIGIN)) == Allow
    ensures OriginDecision(Some(LOOKALIKE_ORIGIN)) == Reject(CORS_ERROR)
  {
    assert OccursAt(LOOKALIKE_ORIGIN, VERCEL_DOMAIN, 9);
    assert LOOKALIKE_ORIGIN[|LOOKALIKE_ORIGIN| - 1] == 'm';
  }

  const PREVIEW_ORIGIN := "https://intellica-git-main.vercel.app"

  /** A deployment preview is allowed by both checks. */
  lemma PreviewDeploymentAllowed()
    ensures OriginDecisionAsWritten(Some(PREVIEW_ORIGIN)) == Allow
    ensures OriginDecision(Some(PREVIEW_ORIGIN)) == Allow
  {
    assert OccursAt(PREVIEW_ORIGIN, VERCEL_DOMAIN, 26);
  }
}
