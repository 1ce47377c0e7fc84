/** Response synthesis: the Alexa-specific answer parts a handler collects, and
    the Alexa response envelope built from a resolved answer state. */
module Handler {
  import opened Common

  datatype VoiceMessage = VoiceMessage(text: string, isSSML: bool)

  /** A card as the framework's card mixin collects it, plus Alexa's small image. */
  datatype Card = Card(
    title: Option<string>,
    description: Option<string>,
    cardImage: Option<string>,
    smallCardImage: Option<string>)

  /** The resolved answer state `getBody` receives: every part is optional. */
  datatype AnswerState = AnswerState(
    shouldSessionEnd: Option<bool>,
    voiceMessage: Option<VoiceMessage>,
    reprompts: Option<seq<VoiceMessage>>,
    card: Option<Card>,
    sessionData: Option<string>,
    shouldAuthenticate: Option<bool>,
    customDirectives: Option<seq<JsonObject>>,
    alexaHint: Option<JsonObject>,
    alexaTemplate: Option<JsonObject>)

  const EmptyAnswer: AnswerState := AnswerState(None, None, None, None, None, None, None, None, None)

  datatype OutputSpeech = PlainText(text: string) | Ssml(ssml: string)

  datatype Image = Image(smallImageUrl: string, largeImageUrl: string)

  datatype CardBody =
    | SimpleCard(title: string, content: string)
    | StandardCard(title: string, text: string, image: Image)
    | LinkAccountCard

  datatype Reprompt = Reprompt(outputSpeech: OutputSpeech)

  datatype Response = Response(
    shouldEndSession: bool,
    outputSpeech: Option<OutputSpeech>,
    card: Option<CardBody>,
    reprompt: Option<Reprompt>,
    directives: Option<seq<JsonObject>>)

  datatype ResponseEnvelope = ResponseEnvelope(
    version: string,
    sessionAttributes: Option<map<string, string>>,
    response: Response)

  /** The display templates a handler can set; only one of them at a time. */
  datatype TemplateKind =
    | ListTemplate1
    | ListTemplate2
    | BodyTemplate1
    | BodyTemplate2
    | BodyTemplate3
    | BodyTemplate6
    | BodyTemplate7

  function TemplateTag(kind: TemplateKind): string
  {
    match kind
    case ListTemplate1 => "ListTemplate1"
    case ListTemplate2 => "ListTemplate2"
    case BodyTemplate1 => "BodyTemplate1"
    case BodyTemplate2 => "BodyTemplate2"
    case BodyTemplate3 => "BodyTemplate3"
    case BodyTemplate6 => "BodyTemplate6"
    case BodyTemplate7 => "BodyTemplate7"
  }

  const CardError: string := "Title and discription must be filled for a card!"

  /** mapTemplate: the payload stamped with its subtype tag, which overrides any
      `type` the payload carried; every other property is kept. */
  function MapTemplate(kind: TemplateKind, value: JsonObject): (t: JsonObject)
    ensures "type" in t && t["type"] == JString(TemplateTag(kind))
    ensures forall key :: key != "type" ==> (key in t <==> key in value)
    ensures forall key :: key in value && key != "type" ==> t[key] == value[key]
  {
    value["type" := JString(TemplateTag(kind))]
  }

  /** The hint shape `setAlexaHint` maps a string to. */
  function PlainTextHint(text: string): JsonObject
  {
    map["type" := JString("PlainText"), "text" := JString(text)]
  }

  function RenderTemplateDirective(template: JsonObject): JsonObject
  {
    map["type" := JString("Display.RenderTemplate"), "template" := JObject(template)]
  }

  function HintDirective(hint: JsonObject): JsonObject
  {
    map["type" := JString("Hint"), "hint" := JObject(hint)]
  }

  /** createCard: a title and a description are both required; without a
      (truthy) image the card is Simple, with one it is Standard and the small
      image falls back to the main one. */
  function CreateCard(card: Option<Card>): (r: Result<CardBody>)
    ensures r.Err? <==> card.None? || !TruthyText(card.value.title) || !TruthyText(card.value.description)
    ensures r.Err? ==> r.error == CardError
    ensures r.Ok? && !TruthyText(card.value.cardImage) ==>
      r.value == SimpleCard(card.value.title.value, card.value.description.value)
    ensures r.Ok? && TruthyText(card.value.cardImage) ==>
      r.value == StandardCard(card.value.title.value, card.value.description.value,
        Image(if TruthyText(card.value.smallCardImage) then card.value.smallCardImage.value
              else card.value.cardImage.value,
              card.value.cardImage.value))
  {
    if card.None? || !TruthyText(card.value.title) || !TruthyText(card.value.description) then
      Err(CardError)
    else if !TruthyText(card.value.cardImage) then
      Ok(SimpleCard(card.value.title.value, card.value.description.value))
    else
      var small := if TruthyText(card.value.smallCardImage) then card.value.smallCardImage.value
                   else card.value.cardImage.value;
      Ok(StandardCard(card.value.title.value, card.value.description.value,
        Image(small, card.value.cardImage.value)))
  }

  /** getSpeechBody: SSML or plain text, as the message says. */
  function GetSpeechBody(message: VoiceMessage): (r: OutputSpeech)
    ensures r.Ssml? <==> message.isSSML
    ensures r.Ssml? ==> r.ssml == message.text
    ensures r.PlainText? ==> r.text == message.text
  {
    if message.isSSML then Ssml(message.text) else PlainText(message.text)
  }

  /** getBaseBody: version 1.0, the end-of-session flag coerced to a boolean,
      and the session data wrapped under `sessionKey` when it is truthy. */
  function GetBaseBody(results: AnswerState): (e: ResponseEnvelope)
    ensures e.version == "1.0"
    ensures e.response.shouldEndSession <==> results.shouldSessionEnd == Some(true)
    ensures e.sessionAttributes.Some? <==> TruthyText(results.sessionData)
    ensures e.sessionAttributes.Some? ==> e.sessionAttributes.value == map["sessionKey" := results.sessionData.value]
    ensures e.response.outputSpeech.None? && e.response.card.None?
    ensures e.response.reprompt.None? && e.response.directives.None?
  {
    var base := Response(results.shouldSessionEnd == Some(true), None, None, None, None);
    ResponseEnvelope("1.0",
      if TruthyText(results.sessionData) then Some(map["sessionKey" := results.sessionData.value]) else None,
      base)
  }

  /** The session attributes of the envelope: the session data under
      `sessionKey`, only when it is truthy. */
  function SessionAttributesOf(results: AnswerState): Option<map<string, string>>
  {
    if TruthyText(results.sessionData) then Some(map["sessionKey" := results.sessionData.value]) else None
  }

  /** fillListTemplate: a set template makes the directives exactly one
      render-template directive. */
  function FillListTemplate(results: AnswerState, payload: ResponseEnvelope): (e: ResponseEnvelope)
    ensures results.alexaTemplate.Some? ==>
      e == payload.(response := payload.response.(directives := Some([RenderTemplateDirective(results.alexaTemplate.value)])))
    ensures results.alexaTemplate.None? ==> e == payload
  {
    if results.alexaTemplate.Some? then
      payload.(response := payload.response.(directives := Some([RenderTemplateDirective(results.alexaTemplate.value)])))
    else payload
  }

  /** fillHint: a set hint is appended after the directives so far, creating
      the list when there is none. */
  function FillHint(results: AnswerState, payload: ResponseEnvelope): (e: ResponseEnvelope)
    ensures results.alexaHint.Some? ==>
      var before := if payload.response.directives.Some? then payload.response.directives.value else [];
      e == payload.(response := payload.response.(directives := Some(before + [HintDirective(results.alexaHint.value)])))
    ensures results.alexaHint.None? ==> e == payload
  {
    if results.alexaHint.Some? then
      var before := if payload.response.directives.Some? then payload.response.directives.value else [];
      payload.(response := payload.response.(directives := Some(before + [HintDirective(results.alexaHint.value)])))
    else payload
  }

  /** fillCustomDirectives: set custom directives, even an empty list, replace
      whatever directives were built before. */
  function FillCustomDirectives(results: AnswerState, payload: ResponseEnvelope): (e: ResponseEnvelope)
    ensures results.customDirectives.Some? ==>
      e == payload.(response := payload.response.(directives := results.customDirectives))
    ensures results.customDirectives.None? ==> e == payload
  {
    if results.customDirectives.Some? then
      payload.(response := payload.response.(directives := results.customDirectives))
    else payload
  }

  /** The directives the precedence rules call for, stated without the steps:
      custom directives win outright; otherwise the render-template directive
      (if any) followed by the hint directive (if any); no list when neither. */
  function ExpectedDirectives(results: AnswerState): Option<seq<JsonObject>>
  {
    if results.customDirectives.Some? then results.customDirectives
    else
      var template := if results.alexaTemplate.Some? then [RenderTemplateDirective(results.alexaTemplate.value)] else [];
      var hint := if results.alexaHint.Some? then [HintDirective(results.alexaHint.value)] else [];
      if template + hint == [] then None else Some(template + hint)
  }

  /** The card the precedence rules call for: LinkAccount when authentication
      is required, whatever card is set; otherwise a card only when it has a
      truthy title. */
  function ExpectedCard(results: AnswerState): Option<Result<CardBody>>
  {
    if results.shouldAuthenticate == Some(true) then Some(Ok(LinkAccountCard))
    else if results.card.Some? && TruthyText(results.card.value.title) then Some(CreateCard(results.card))
    else None
  }

  /** The three directive steps, run in getBody's order on an envelope without
      directives, produce exactly the directives the precedence rules call for. */
  lemma {:induction false} DirectiveStepsMeetPrecedence(results: AnswerState, payload: ResponseEnvelope)
    requires payload.response.directives.None?
    ensures FillCustomDirectives(results, FillHint(results, FillListTemplate(results, payload))).response.directives
      == ExpectedDirectives(results)
  {
    if results.customDirectives.None? {
      var template := if results.alexaTemplate.Some? then [RenderTemplateDirective(results.alexaTemplate.value)] else [];
      var afterTemplate := FillListTemplate(results, payload);
      assert afterTemplate.response.directives == if template == [] then None else Some(template);
      if results.alexaHint.Some? {
        var hint := [HintDirective(results.alexaHint.value)];
        assert FillHint(results, afterTemplate).response.directives == Some(template + hint);
      } else {
        assert template + [] == template;
      }
    }
  }

  /** The first half of getBody: the base envelope run through the template,
      hint and custom-directive steps in turn. Only the directives differ from
      the base body. */
  method BaseWithDirectives(results: AnswerState) returns (response: ResponseEnvelope)
    ensures response.version == "1.0"
    ensures response.response.shouldEndSession <==> results.shouldSessionEnd == Some(true)
    ensures response.sessionAttributes == SessionAttributesOf(results)
    ensures response.response.directives == ExpectedDirectives(results)
    ensures response.response.outputSpeech.None? && response.response.card.None? && response.response.reprompt.None?
  {
    response := GetBaseBody(results);
    response := FillListTemplate(results, response);
    response := FillHint(results, response);
    response := FillCustomDirectives(results, response);
    DirectiveStepsMeetPrecedence(results, GetBaseBody(results));
  }

  /** The handler's Alexa-specific answer parts. Each setter overwrites its
      slot; all template setters share one slot. */
  class AlexaHandler {
    var customDirectives: Option<seq<JsonObject>>
    var alexaHint: Option<JsonObject>
    var alexaTemplate: Option<JsonObject>

    constructor()
      ensures customDirectives.None? && alexaHint.None? && alexaTemplate.None?
    {
      customDirectives, alexaHint, alexaTemplate := None, None, None;
    }

    method SetAlexaCustomDirectives(directives: seq<JsonObject>)
      modifies this
      ensures customDirectives == Some(directives)
      ensures alexaHint == old(alexaHint) && alexaTemplate == old(alexaTemplate)
    {
      customDirectives := Some(directives);
    }

    method SetAlexaHint(hint: string)
      modifies this
      ensures alexaHint == Some(PlainTextHint(hint))
      ensures customDirectives == old(customDirectives) && alexaTemplate == old(alexaTemplate)
    {
      alexaHint := Some(PlainTextHint(hint));
    }

    /** setAlexaListTemplate1/2 and setAlexaBodyTemplate1/2/3/6/7: the seven
        setters differ only in the subtype tag. */
    method SetAlexaTemplate(kind: TemplateKind, template: JsonObject)
      modifies this
      ensures alexaTemplate == Some(MapTemplate(kind, template))
      ensures customDirectives == old(customDirectives) && alexaHint == old(alexaHint)
    {
      alexaTemplate := Some(MapTemplate(kind, template));
    }

    /** The answer state the framework resolves: its own parts, with the
        Alexa-specific parts taken from this handler. */
    function Resolve(answers: AnswerState): (r: AnswerState)
      reads this
      ensures r.customDirectives == customDirectives
      ensures r.alexaHint == alexaHint && r.alexaTemplate == alexaTemplate
      ensures r.(customDirectives := answers.customDirectives, alexaHint := answers.alexaHint,
                 alexaTemplate := answers.alexaTemplate) == answers
    {
      answers.(customDirectives := customDirectives, alexaHint := alexaHint, alexaTemplate := alexaTemplate)
    }

    /** getBody: the base envelope, then template, hint and custom directives,
        then card, speech and reprompt, each step updating the one response. */
    method GetBody(results: AnswerState) returns (r: Result<ResponseEnvelope>)
      ensures r.Err? <==> ExpectedCard(results).Some? && ExpectedCard(results).value.Err?
      ensures r.Err? ==> r.error == CardError
      ensures r.Ok? ==> r.value.version == "1.0"
      ensures r.Ok? ==> (r.value.response.shouldEndSession <==> results.shouldSessionEnd == Some(true))
      ensures r.Ok? ==> r.value.sessionAttributes == SessionAttributesOf(results)
      ensures r.Ok? ==> r.value.response.directives == ExpectedDirectives(results)
      ensures r.Ok? && ExpectedCard(results).None? ==> r.value.response.card.None?
      ensures r.Ok? && ExpectedCard(results).Some? ==> r.value.response.card == Some(ExpectedCard(results).value.value)
      ensures r.Ok? && results.voiceMessage.None? ==> r.value.response.outputSpeech.None?
      ensures r.Ok? && results.voiceMessage.Some? ==>
                r.value.response.outputSpeech == Some(GetSpeechBody(results.voiceMessage.value))
      ensures r.Ok? && (results.reprompts.None? || results.reprompts.value == []) ==> r.value.response.reprompt.None?
      ensures r.Ok? && results.reprompts.Some? && results.reprompts.value != [] ==>
                r.value.response.reprompt == Some(Reprompt(GetSpeechBody(results.reprompts.value[0])))
    {
      var response := BaseWithDirectives(results);

      if results.shouldAuthenticate == Some(true) {
        response := response.(response := response.response.(card := Some(LinkAccountCard)));
      } else if results.card.Some? && TruthyText(results.card.value.title) {
        var card := CreateCard(results.card);
        assert ExpectedCard(results) == Some(card);
        if card.Err? {
          return Err(card.error);
        }
        response := response.(response := response.response.(card := Some(card.value)));
      }
      assert ExpectedCard(results).None? ==> response.response.card.None?;
      assert ExpectedCard(results).Some? ==>
               ExpectedCard(results).value.Ok? && response.response.card == Some(ExpectedCard(results).value.value);

      if results.voiceMessage.Some? {
        response := response.(response := response.response.(outputSpeech := Some(GetSpeechBody(results.voiceMessage.value))));
      }

      if results.reprompts.Some? && |results.reprompts.value| > 0 {
        var reprompt := Reprompt(GetSpeechBody(results.reprompts.value[0]));
        response := response.(response := response.response.(reprompt := Some(reprompt)));
      }

      r := Ok(response);
    }
  }
  /** Only the last template set survives: a body template followed by a list
      template yields just the list template's render directive. */
  method TemplateSlotScenario(first: JsonObject, second: JsonObject) returns (r: Result<ResponseEnvelope>)
    ensures r.Ok?
    ensures r.value.response.directives == Some([RenderTemplateDirective(MapTemplate(ListTemplate2, second))])
    ensures r.value.response.directives.value[0]["template"].fields["type"] == JString("ListTemplate2")
  {
    var handler := new AlexaHandler();
    handler.SetAlexaTemplate(BodyTemplate1, first);
    handler.SetAlexaTemplate(ListTemplate2, second);
    var directive := RenderTemplateDirective(MapTemplate(ListTemplate2, second));
    assert [directive] + [] == [directive];
    r := handler.GetBody(handler.Resolve(EmptyAnswer));
  }

  /** A hint comes after the template directive, as `{type: "Hint", hint}`
      with the hint in its PlainText shape. */
  method HintScenario(kind: TemplateKind, template: JsonObject, hint: string) returns (r: Result<ResponseEnvelope>)
    ensures r.Ok?
    ensures r.value.response.directives == Some([
      RenderTemplateDirective(MapTemplate(kind, template)),
      HintDirective(PlainTextHint(hint))])
  {
    var handler := new AlexaHandler();
    handler.SetAlexaHint(hint);
    handler.SetAlexaTemplate(kind, template);
    var render := RenderTemplateDirective(MapTemplate(kind, template));
    var hinted := HintDirective(PlainTextHint(hint));
    assert [render] + [hinted] == [render, hinted];
    r := handler.GetBody(handler.Resolve(EmptyAnswer));
  }

  /** Custom directives, even an empty list, replace the template and hint
      directives. */
  method CustomDirectivesScenario(kind: TemplateKind, template: JsonObject, hint: string, directives: seq<JsonObject>)
    returns (r: Result<ResponseEnvelope>)
    ensures r.Ok?
    ensures r.value.response.directives == Some(directives)
  {
    var handler := new AlexaHandler();
    handler.SetAlexaTemplate(kind, template);
    handler.SetAlexaHint(hint);
    handler.SetAlexaCustomDirectives(directives);
    r := handler.GetBody(handler.Resolve(EmptyAnswer));
  }

  /** Required authentication yields the LinkAccount card even when the set
      card is one `createCard` would refuse. */
  method LinkAccountScenario(title: string) returns (r: Result<ResponseEnvelope>)
    requires title != ""
    ensures r.Ok?
    ensures r.value.response.card == Some(LinkAccountCard)
  {
    var handler := new AlexaHandler();
    var answers := EmptyAnswer.(shouldAuthenticate := Some(true), card := Some(Card(Some(title), None, None, None)));
    r := handler.GetBody(handler.Resolve(answers));
  }

  /** Without authentication the same card is refused with the card error. */
  method IncompleteCardScenario(title: string) returns (r: Result<ResponseEnvelope>)
    requires title != ""
    ensures r == Err(CardError)
  {
    var handler := new AlexaHandler();
    var answers := EmptyAnswer.(card := Some(Card(Some(title), None, None, None)));
    r := handler.GetBody(handler.Resolve(answers));
  }

  /** An image card is Standard with the image as both URLs; a card without
      image is Simple. */
  method CardScenario(withImage: bool) returns (r: Result<ResponseEnvelope>)
    ensures r.Ok?
    ensures withImage ==> r.value.response.card == Some(StandardCard("My title", "My body", Image("My image", "My image")))
    ensures !withImage ==> r.value.response.card == Some(SimpleCard("My title", "My body"))
  {
    var handler := new AlexaHandler();
    var image := if withImage then Some("My image") else None;
    var answers := EmptyAnswer.(card := Some(Card(Some("My title"), Some("My body"), image, None)));
    r := handler.GetBody(handler.Resolve(answers));
  }
}
