/** Request normalisation: deciding whether an HTTP request is an Alexa request
    for this skill, and mapping its body to the framework's flat extraction. */
module Extraction {
  import opened Common
  import opened IntentDict

  /** The `value` of an Alexa slot as it arrives in the JSON body. */
  datatype SlotValue = Undefined | Null | Text(text: string)

  datatype IntentData = IntentData(name: string, slots: Option<map<string, SlotValue>>)

  /** The request types the adapter distinguishes, each with its payload. */
  datatype Request =
    | LaunchRequest(timestamp: string, locale: string)
    | IntentRequest(timestamp: string, locale: string, intent: IntentData)
    | SessionEndedRequest(timestamp: string, locale: string)
    | ElementSelectedRequest(timestamp: string, locale: string, token: Option<string>)

  datatype Application = Application(applicationId: string)

  datatype User = User(userId: string, accessToken: Option<string>)

  datatype Session = Session(
    sessionId: string,
    application: Option<Application>,
    attributes: Option<map<string, string>>,
    user: User)

  datatype RequestEnvelope = RequestEnvelope(session: Option<Session>, request: Request)

  datatype Headers = Headers(signature: string, signatureCertChainUrl: string)

  datatype RequestContext = RequestContext(path: string, headers: Headers, body: RequestEnvelope)

  /** The component configuration the extractor reads. The descriptor's
      defaults are `DefaultRoute` and a verifier that is on. */
  datatype Configuration = Configuration(
    applicationID: Option<string>,
    route: string,
    useVerifier: Option<bool>)

  const DefaultRoute: string := "/alexa"

  /** A signature verifier: given the certificate-chain URL, the signature and
      the request body, the error it calls back with (`None` for a falsy one). */
  type Verifier = (string, string, RequestEnvelope) -> Option<string>

  /** The flat record handed to the framework. */
  datatype Extraction = Extraction(
    sessionID: string,
    sessionData: Option<string>,
    intent: Intent,
    entities: map<string, string>,
    language: string,
    platform: string,
    oAuthToken: Option<string>,
    temporalAuthToken: Option<string>,
    requestTimestamp: string)

  const MissingApplicationID: string :=
    "You did not configure an applicationID. Using assistant-alexa without configuring an applicationID is not possible."

  /** The key under which a selected display element's token is reported. */
  const SelectedElementKey: string := "selectedElement"

  /** The verifier the extractor uses: a bypass that always calls back with a
      falsy error when `useVerifier` is exactly `false`, the real one otherwise. */
  function ResolveVerifier(config: Configuration, alexaVerifier: Verifier): (v: Verifier)
    ensures config.useVerifier == Some(false) ==> forall url, sig, body :: v(url, sig, body) == None
    ensures config.useVerifier != Some(false) ==> v == alexaVerifier
  {
    if config.useVerifier == Some(false) then (url, sig, body) => None else alexaVerifier
  }

  /** fitsInternal: a configuration error when no application id is configured,
      checked before the request is looked at; otherwise whether the request has
      a session with an application whose id and path match the configuration. */
  function FitsInternal(config: Configuration, ctx: RequestContext): (r: Result<bool>)
    ensures r.Err? <==> config.applicationID.None?
    ensures r.Err? ==> r.error == MissingApplicationID
    ensures r == Ok(true) <==>
      && config.applicationID.Some?
      && ctx.body.session.Some?
      && ctx.body.session.value.application.Some?
      && ctx.path == config.route
      && ctx.body.session.value.application.value.applicationId == config.applicationID.value
  {
    if config.applicationID.None? then Err(MissingApplicationID)
    else if ctx.body.session.None? || ctx.body.session.value.application.None? then Ok(false)
    else
      Ok(ctx.path == config.route
         && ctx.body.session.value.application.value.applicationId == config.applicationID.value)
  }

  /** What `fits` resolves to with a given verifier: the verifier is asked only
      once the structural match succeeded, and a truthy error means `false`. */
  function FitsWith(config: Configuration, verifier: Verifier, ctx: RequestContext): (r: Result<bool>)
    ensures r.Err? <==> FitsInternal(config, ctx).Err?
    ensures r == Ok(true) <==>
      FitsInternal(config, ctx) == Ok(true)
      && verifier(ctx.headers.signatureCertChainUrl, ctx.headers.signature, ctx.body).None?
  {
    match FitsInternal(config, ctx)
    case Err(e) => Err(e)
    case Ok(matched) =>
      if !matched then Ok(false)
      else Ok(verifier(ctx.headers.signatureCertChainUrl, ctx.headers.signature, ctx.body).None?)
  }

  /** With `useVerifier` false, `fits` is exactly `fitsInternal`. */
  lemma FitsWithoutVerifier(config: Configuration, alexaVerifier: Verifier, ctx: RequestContext)
    requires config.useVerifier == Some(false)
    ensures FitsWith(config, ResolveVerifier(config, alexaVerifier), ctx) == FitsInternal(config, ctx)
  {
    var v := ResolveVerifier(config, alexaVerifier);
    assert v(ctx.headers.signatureCertChainUrl, ctx.headers.signature, ctx.body) == None;
  }

  /** A slot value counts as filled unless it is undefined, null, "?" or "null". */
  predicate IsFilled(v: SlotValue) {
    v.Text? && v.text != "?" && v.text != "null"
  }

  /** What `getEntities` promises about its result for a request. */
  ghost predicate IsEntitiesOf(request: Request, entities: map<string, string>) {
    match request
    case IntentRequest(_, _, intent) =>
      (match intent.slots
       case Some(slots) =>
         && (forall name :: name in entities <==> name in slots && IsFilled(slots[name]))
         && (forall name :: name in entities ==> entities[name] == slots[name].text)
       case None => entities == map[])
    case ElementSelectedRequest(_, _, token) =>
      entities == if token.Some? then map[SelectedElementKey := token.value] else map[]
    case _ => entities == map[]
  }

  /** getEntities: walks the slots of an intent request and keeps the filled
      ones; a selected element becomes one pseudo-entity. */
  method GetEntities(request: Request) returns (entities: map<string, string>)
    ensures IsEntitiesOf(request, entities)
  {
    entities := map[];
    if request.IntentRequest? {
      if request.intent.slots.Some? {
        var slots := request.intent.slots.value;
        var remaining := slots.Keys;
        while remaining != {}
          invariant remaining <= slots.Keys
          invariant forall name :: name in entities <==>
            name in slots && name !in remaining && IsFilled(slots[name])
          invariant forall name :: name in entities ==> entities[name] == slots[name].text
          decreases remaining
        {
          var name :| name in remaining;
          if IsFilled(slots[name]) {
            entities := entities[name := slots[name].text];
          }
          remaining := remaining - {name};
        }
      }
    } else if request.ElementSelectedRequest? && request.token.Some? {
      entities := entities[SelectedElementKey := request.token.value];
    }
  }

  /** makeIntentStringToGenericIntent: the dictionary entry for an own key of
      the Amazon table, or nothing. */
  function MakeIntentStringToGenericIntent(name: string): (r: Option<GenericIntent>)
    ensures r.Some? <==> name in AmazonToGeneric
    ensures r.Some? ==> r.value == AmazonToGeneric[name]
  {
    if name in AmazonToGeneric then Some(AmazonToGeneric[name]) else None
  }

  /** getGenericIntent: the generic intent a request stands for, if any. */
  function GetGenericIntent(request: Request): (r: Option<GenericIntent>)
    ensures request.LaunchRequest? ==> r == Some(Invoke)
    ensures request.SessionEndedRequest? ==> r == Some(Unanswered)
    ensures request.ElementSelectedRequest? ==> r == Some(Selected)
    ensures request.IntentRequest? ==> (r.Some? <==> request.intent.name in AmazonToGeneric)
    ensures request.IntentRequest? && r.Some? ==> r.value == AmazonToGeneric[request.intent.name]
  {
    match request
    case LaunchRequest(_, _) => Some(Invoke)
    case SessionEndedRequest(_, _) => Some(Unanswered)
    case ElementSelectedRequest(_, _, _) => Some(Selected)
    case IntentRequest(_, _, intent) => MakeIntentStringToGenericIntent(intent.name)
  }

  /** getIntent: the generic intent first, otherwise the raw intent name. */
  function GetIntent(request: Request): (i: Intent)
    ensures request.LaunchRequest? ==> i == Generic(Invoke)
    ensures request.SessionEndedRequest? ==> i == Generic(Unanswered)
    ensures request.ElementSelectedRequest? ==> i == Generic(Selected)
    ensures request.IntentRequest? ==>
      i == if request.intent.name in AmazonToGeneric then Generic(AmazonToGeneric[request.intent.name])
           else Named(request.intent.name)
  {
    match GetGenericIntent(request)
    case Some(g) => Generic(g)
    case None => Named(request.intent.name)
  }

  /** An Amazon built-in intent is never passed on under its Amazon name, and
      the generic intent it resolves to leads back to that name through the
      generator's inverse table. */
  lemma IntentResolutionRoundTrip(request: Request)
    requires request.IntentRequest?
    ensures GetIntent(request).Named? ==> GetIntent(request).name !in AmazonToGeneric
    ensures GetIntent(request).Generic? ==>
      && GetIntent(request).generic in GenericToAmazon
      && GenericToAmazon[GetIntent(request).generic] == request.intent.name
  {
    if request.intent.name in AmazonToGeneric {
      AmazonRoundTrip(request.intent.name);
    }
  }

  /** The text before the first `sep`, the whole text when there is none: what
      `s.split(sep)[0]` returns. */
  function TextBefore(s: string, sep: char): (r: string)
    ensures r <= s
    ensures sep !in r
    ensures r == s || s[|r|] == sep
  {
    if |s| == 0 || s[0] == sep then "" else [s[0]] + TextBefore(s[1..], sep)
  }

  /** getLanguage: the locale up to its first "-". */
  function GetLanguage(request: Request): (r: string)
    ensures r <= request.locale && '-' !in r
    ensures r == request.locale || request.locale[|r|] == '-'
  {
    TextBefore(request.locale, '-')
  }

  /** getUser: the forced token when one is configured, else the session's
      access token; nothing when there is no session. */
  function GetUser(body: RequestEnvelope, forcedOAuthToken: Option<string>): (r: Option<string>)
    ensures forcedOAuthToken.Some? ==> r == forcedOAuthToken
    ensures forcedOAuthToken.None? && body.session.Some? ==> r == body.session.value.user.accessToken
    ensures forcedOAuthToken.None? && body.session.None? ==> r == None
  {
    if forcedOAuthToken.Some? then forcedOAuthToken
    else if body.session.Some? then body.session.value.user.accessToken
    else None
  }

  /** getTemporalAuth: the session's user id, or null without a session. */
  function GetTemporalAuth(body: RequestEnvelope): (r: Option<string>)
    ensures r.Some? <==> body.session.Some?
    ensures r.Some? ==> r.value == body.session.value.user.userId
  {
    if body.session.Some? then Some(body.session.value.user.userId) else None
  }

  /** getSessionData: `attributes.sessionKey`, or null when the session or its
      attributes are absent. */
  function GetSessionData(body: RequestEnvelope): (r: Option<string>)
    ensures r.Some? <==> body.session.Some? && body.session.value.attributes.Some?
                         && "sessionKey" in body.session.value.attributes.value
    ensures r.Some? ==> r.value == body.session.value.attributes.value["sessionKey"]
  {
    if body.session.Some? && body.session.value.attributes.Some?
       && "sessionKey" in body.session.value.attributes.value
    then Some(body.session.value.attributes.value["sessionKey"])
    else None
  }

  /** The extractor: its configuration and the verifier resolved once, when it
      is constructed. */
  class RequestExtractor {
    const platform: string
    const configuration: Configuration
    var verifyAlexaProxy: Verifier

    constructor(platform: string, configuration: Configuration, alexaVerifier: Verifier)
      ensures this.platform == platform && this.configuration == configuration
      ensures verifyAlexaProxy == ResolveVerifier(configuration, alexaVerifier)
    {
      this.platform := platform;
      this.configuration := configuration;
      verifyAlexaProxy := ResolveVerifier(configuration, alexaVerifier);
    }

    /** fits: `verified` says whether the verifier was consulted, which happens
        exactly when the structural match succeeded. */
    method Fits(ctx: RequestContext) returns (r: Result<bool>, verified: bool)
      ensures verified <==> FitsInternal(configuration, ctx) == Ok(true)
      ensures r == FitsWith(configuration, verifyAlexaProxy, ctx)
    {
      var matched := FitsInternal(configuration, ctx);
      if matched.Err? {
        return Err(matched.error), false;
      }
      if !matched.value {
        return Ok(false), false;
      }
      var error := verifyAlexaProxy(ctx.headers.signatureCertChainUrl, ctx.headers.signature, ctx.body);
      r := Ok(error.None?);
      verified := true;
    }

    /** extract: the session id is read with a non-null assertion, so the
        request must carry a session (as every request `fits` accepts does). */
    method Extract(ctx: RequestContext, forcedOAuthToken: Option<string>) returns (e: Extraction)
      requires ctx.body.session.Some?
      ensures e.sessionID == ctx.body.session.value.sessionId
      ensures e.sessionData == GetSessionData(ctx.body)
      ensures e.intent == GetIntent(ctx.body.request)
      ensures IsEntitiesOf(ctx.body.request, e.entities)
      ensures e.language == GetLanguage(ctx.body.request)
      ensures e.platform == platform
      ensures e.oAuthToken == GetUser(ctx.body, forcedOAuthToken)
      ensures e.temporalAuthToken == GetTemporalAuth(ctx.body)
      ensures e.requestTimestamp == ctx.body.request.timestamp
    {
      var entities := GetEntities(ctx.body.request);
      e := Extraction(
        ctx.body.session.value.sessionId,
        GetSessionData(ctx.body),
        GetIntent(ctx.body.request),
        entities,
        GetLanguage(ctx.body.request),
        platform,
        GetUser(ctx.body, forcedOAuthToken),
        GetTemporalAuth(ctx.body),
        ctx.body.request.timestamp);
    }
  }
}
