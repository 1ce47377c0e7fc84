# Alexa platform adapter — a verified model

This project models the Alexa adapter of the AssistantJS voice-application
framework in Dafny. The adapter has five parts:

- **Intent dictionary.** It translates Amazon's built-in intent names to the
  framework's generic intents and back. The inverse table is built by
  swapping keys and values.
- **Request extractor.** It decides whether an incoming Alexa request belongs
  to this skill (route, application id, signature verifier). It turns the
  request into the framework's extraction: session id, session data, intent,
  entities, language, user tokens and timestamp.
- **Handler.** It collects the Alexa-only answer parts (display templates, a
  hint, custom directives) and builds the Alexa response envelope from a
  resolved answer state: base body, directives, card, speech, reprompt.
- **Generator.** It turns the framework's intent configurations into Alexa's
  interaction-model schema:
  - it filters unspeakable and utterance-less intents and maps generic
    intents to Amazon names;
  - it rewrites `{{example|slot}}` placeholders;
  - it builds slots and custom slot types;
  - it checks the invocation name.
- **Deployment.** It covers the logic of the deploy command:
  - the country codes in schema file names and their locales;
  - whether the skill's locale list must be rewritten;
  - the skill-status lookup;
  - the wait for model training to leave `IN_PROGRESS`;
  - the ask-cli version gate;
  - the decision to deploy.

Modules:

- `Common`: the Option, Result and JSON values, plus JavaScript truthiness and
  white space.
- `Sequences`: filter-map, map with the first error, and duplicate removal.
- `IntentDict`, `Extraction`, `Handler`, `Generator` and `Deployment`: one
  module per source file.

Two parts are classes with methods that change them:

- `Extraction.RequestExtractor` keeps its configuration and the verifier it
  resolved.
- `Handler.AlexaHandler` keeps the three Alexa-specific answer slots.

The rest of the model is values and functions. The loops in the source are
methods with loop invariants, each proved against a specification function:

- `swap`;
- the entity collection in `getEntities`;
- the utterance pass in `prepareConfiguration`;
- `buildCustomEntities`;
- the polling interval.

The framework around the adapter is not part of this model. Effects the
adapter performs become inputs:

- the signature verifier is a function parameter;
- the forced OAuth token is an optional parameter;
- the ask-cli replies, the clock readings of the polling interval and the
  schema file names are parameters or value sequences.

`getSessionID` returns the request's raw `sessionId`. A prefixed id appears
only in the framework's own tests, so the model follows the code here.

## Model

| member | source | states |
|---|---|---|
| IntentDict.Swap | src/components/alexa/intent-dict.ts:4-11 | The loop's table equals `SwapOf` of the entries visited so far; after the last entry it is `SwapOf(entries)`. |
| IntentDict.SwapOfKeys | src/components/alexa/intent-dict.ts:4-11 | The swapped table's keys are exactly the input's values. |
| IntentDict.SwapOfLastWriterWins | src/components/alexa/intent-dict.ts:7-9 | A value maps to the key visited last among the keys carrying it. |
| IntentDict.SwapOfFromInput | src/components/alexa/intent-dict.ts:7-9 | Every swapped entry is an input pair read backwards. |
| IntentDict.GenericToAmazonKeys | src/components/alexa/intent-dict.ts:13-21 | The inverse table covers exactly Yes, No, Help, Cancel and Stop. |
| IntentDict.AmazonRoundTrip | src/components/alexa/intent-dict.ts:13-21 | Amazon name → generic intent → Amazon name gives the name back. |
| IntentDict.GenericRoundTrip | src/components/alexa/intent-dict.ts:13-21 | Generic intent → Amazon name → generic intent gives the intent back. |
| IntentDict.TableSizes | src/components/alexa/intent-dict.ts:13-21 | Both tables have five entries. |
| IntentDict.AmazonTablesAgree | src/components/alexa/intent-dict.ts:13-21 | The ordered entry list and the dictionary are the same literal: every listed pair is in the dictionary, and every dictionary key is listed. |
| Extraction.ResolveVerifier | src/components/alexa/request-extractor.ts:78-87 | With `useVerifier === false` the verifier reports no error for any input; otherwise it is the real verifier. |
| Extraction.FitsInternal | src/components/alexa/request-extractor.ts:93-100 | Error iff no application id is configured. True iff a session with an application exists and both the route and the application id match. |
| Extraction.FitsWith | src/components/alexa/request-extractor.ts:33-54 | True iff `fitsInternal` holds and the verifier reports no error. A configuration error propagates. |
| Extraction.FitsWithoutVerifier | src/components/alexa/request-extractor.ts:78-84 | With the proxy verifier, `fits` equals `fitsInternal`. |
| Extraction.GetEntities | src/components/alexa/request-extractor.ts:120-147 | IntentRequest with slots: exactly the slots whose value is not undefined, null, "?" or "null", each with its value. Element selection with a token: exactly `{selectedElement: token}`. Anything else: empty. |
| Extraction.MakeIntentStringToGenericIntent | src/components/alexa/request-extractor.ts:187-189 | Some iff the name is an Amazon built-in name, and then its generic intent. |
| Extraction.GetGenericIntent | src/components/alexa/request-extractor.ts:173-185 | Launch gives Invoke, session end gives Unanswered, element selection gives Selected. An intent request gives a generic intent iff its name is an Amazon built-in name, and then that name's generic intent. |
| Extraction.GetIntent | src/components/alexa/request-extractor.ts:113-118 | Launch → Invoke, session end → Unanswered, element selection → Selected. An intent request gives the generic intent of an Amazon name, or the name itself. |
| Extraction.IntentResolutionRoundTrip | src/components/alexa/request-extractor.ts:173-189 | A named intent is never an Amazon built-in name. A generic one maps back to the request's intent name through the inverse table. |
| Extraction.TextBefore | src/components/alexa/request-extractor.ts:159-161 | The language is a prefix of the locale without "-", ending where the locale ends or at its first "-". |
| Extraction.GetLanguage | src/components/alexa/request-extractor.ts:159-161 | The language is a prefix of the locale holding no "-", and the locale either ends there or continues with "-". |
| Extraction.GetUser | src/components/alexa/request-extractor.ts:163-170 | The forced token wins. Otherwise the session's access token, or none without a session. |
| Extraction.GetTemporalAuth | src/components/alexa/request-extractor.ts:74-76 | A token iff there is a session, and then it is the session user's id. |
| Extraction.GetSessionData | src/components/alexa/request-extractor.ts:106-111 | Data iff the session has attributes holding `sessionKey`, and then it is that value; otherwise null. |
| Extraction.RequestExtractor.constructor | src/components/alexa/request-extractor.ts:24-31 | Keeps the platform and configuration, and stores the resolved verifier. |
| Extraction.RequestExtractor.Fits | src/components/alexa/request-extractor.ts:33-54 | The verifier is consulted iff `fitsInternal` is true; the result is `FitsWith`. |
| Extraction.RequestExtractor.Extract | src/components/alexa/request-extractor.ts:56-72 | Each extraction field comes from its getter. The entities meet the `getEntities` description and the timestamp is copied verbatim. |
| Handler.MapTemplate | src/components/alexa/handler.ts:257-261 | "type" becomes the subtype tag; every other key and value of the template is kept. |
| Handler.CreateCard | src/components/alexa/handler.ts:168-190 | Error iff the title or description is missing or empty. Without an image: a simple card. With an image: a standard card whose small image falls back to the large one. |
| Handler.GetBaseBody | src/components/alexa/handler.ts:192-201 | Version "1.0". `shouldEndSession` iff the session should end. Session attributes iff session data is non-empty. Nothing else is set. |
| Handler.FillListTemplate | src/components/alexa/handler.ts:217-228 | A set template appends one render directive; otherwise nothing changes. |
| Handler.FillHint | src/components/alexa/handler.ts:230-243 | A set hint appends one hint directive; otherwise nothing changes. |
| Handler.FillCustomDirectives | src/components/alexa/handler.ts:245-251 | Custom directives replace all directives; otherwise nothing changes. |
| Handler.GetSpeechBody | src/components/alexa/handler.ts:203-216 | SSML iff the message is marked SSML; either way the speech carries the message text unchanged. |
| Handler.DirectiveStepsMeetPrecedence | src/components/alexa/handler.ts:138-142 | The three steps in order give: custom directives if set, else template then hint, else no directive list. |
| Handler.AlexaHandler.constructor | src/components/alexa/handler.ts:20-28 | All three Alexa slots start unset. |
| Handler.AlexaHandler.SetAlexaCustomDirectives | src/components/alexa/handler.ts:55-58 | Sets the directives slot; the other slots are unchanged. |
| Handler.AlexaHandler.SetAlexaHint | src/components/alexa/handler.ts:60-72 | Sets the hint slot to a PlainText hint; the other slots are unchanged. |
| Handler.AlexaHandler.SetAlexaTemplate | src/components/alexa/handler.ts:74-128 | Every template setter writes the one template slot, tagged with its subtype; the other slots are unchanged. |
| Handler.AlexaHandler.Resolve | src/components/alexa/handler.ts:55-128 | The resolved answer carries this handler's three slots; its other parts are unchanged. |
| Handler.BaseWithDirectives | src/components/alexa/handler.ts:136-142 | After the base body and the three directive steps, the directives follow the precedence rules; version, end flag and session attributes are the base body's; no card, speech or reprompt yet. |
| Handler.AlexaHandler.GetBody | src/components/alexa/handler.ts:134-162 | Throws the card error exactly when a set, non-authenticating card lacks a title or description. Otherwise gives the base fields, the directive precedence, the link-account card or the built card, the speech, and the first reprompt. |
| Handler.TemplateSlotScenario | spec/handler.spec.ts:105-166 | With two template setters, the later template is the only render directive. |
| Handler.HintScenario | spec/handler.spec.ts:87-103 | A template and a hint give the render directive followed by the hint directive. |
| Handler.CustomDirectivesScenario | spec/handler.spec.ts:73-85 | Custom directives replace the template and hint directives. |
| Handler.LinkAccountScenario | src/components/alexa/handler.ts:144-149 | A request to authenticate yields the link-account card even when a card is set. |
| Handler.IncompleteCardScenario | src/components/alexa/handler.ts:168-171 | A card with a title and no description throws the card error. |
| Handler.CardScenario | spec/handler.spec.ts:41-71 | The image card and the standard card of the handler tests. |
| Generator.LastBar | src/components/alexa/generator.ts:91-93 | Finds the last "\|" of a placeholder, or reports that there is none. |
| Generator.LastSegment | src/components/alexa/generator.ts:91-93 | The slot name after the last "\|". It has no "\|" and is the whole text when there is no "\|". |
| Generator.ClosingFrom | src/components/alexa/generator.ts:91 | The lazy `{{(.*?)}}` closes at the earliest "}}" with no line terminator before it. |
| Generator.ClosingFromReaches | src/components/alexa/generator.ts:91 | The lazy match reaches any "}}" preceded only by non-"}" characters on one line. |
| Generator.RewriteLiteral | src/components/alexa/generator.ts:91-93 | Text without "{" passes through the replacement unchanged. |
| Generator.RewritePlaceholder | src/components/alexa/generator.ts:91-93 | `{{x}}` becomes `{` + the text after x's last "\|" + `}`, and the rest is rewritten in turn. |
| Generator.Rewrite | src/components/alexa/generator.ts:91-93 | An utterance without "{" is unchanged; the lemmas below state how literal text and placeholders are rewritten. |
| Generator.RewriteTwoPlaceholders | spec/src/components/alexa/generator.spec.ts:249-283 | An utterance with two placeholders is rewritten placeholder by placeholder. |
| Generator.RewriteExample | spec/src/components/alexa/generator.spec.ts:249-283 | The test utterance with two placeholders becomes `hello {type}, how are {type2}`. |
| Generator.LastSegmentAfterBar | src/components/alexa/generator.ts:92 | After a "\|" with no later "\|", the slot name is the rest of the text. |
| Generator.LastSegmentExamples | spec/src/components/alexa/generator.spec.ts:249-283 | "world\|type" gives "type"; "you\|type2" gives "type2". |
| Generator.Samples | src/components/alexa/generator.ts:88-96 | The samples are exactly the rewritten utterances, without duplicates. |
| Sequences.Dedup | src/components/alexa/generator.ts:89-95 | `[...new Set(...)]` keeps exactly the same elements, each once. |
| Sequences.DedupFirstOccurrenceOrder | src/components/alexa/generator.ts:89-95 | The kept elements appear in order of first occurrence. |
| Sequences.MapResult | src/components/alexa/generator.ts:163-176 | `map` with a throwing callback: Ok iff every element succeeds, then pointwise values; otherwise the first failing element's error. |
| Generator.PrepareOne | src/components/alexa/generator.ts:122-156 | A named intent survives iff it has utterances, under its own name. A generic intent survives iff it is speakable and has an Amazon name, whatever its utterances; it then carries that name and no utterances. |
| Generator.PassesAgree | src/components/alexa/generator.ts:122-156 | The three passes applied to one configuration agree with `PrepareOne`. |
| Generator.PassesCompose | src/components/alexa/generator.ts:122-156 | Filtering, then dropping utterance-less intents, then converting, equals one filter-map with `PrepareOne`. |
| Generator.PrepareConfiguration | src/components/alexa/generator.ts:122-156 | The prepared intents are the filter-map of the configurations with `PrepareOne`. |
| Generator.PrepareExample | spec/src/components/alexa/generator.spec.ts:303-340 | Speakable Yes becomes `AMAZON.YesIntent`; an intent without utterances is removed, and so is generic intent 11, which has no Amazon name. |
| Generator.SlotFor | src/components/alexa/generator.ts:163-176 | Type precedence: the configured entity type, else the custom mapping key, else an error naming the parameter. An unmapped parameter looks up the key "undefined". |
| Generator.MakeSlots | src/components/alexa/generator.ts:158-177 | Ok iff every parameter has a slot type, then one slot per parameter in order; otherwise the error of the first parameter without a type, every earlier one having a type. |
| Generator.IntentSchemaFor | src/components/alexa/generator.ts:84-97 | One intent's schema: Ok iff every entity has a slot type, then its name, its slots in entity order and its samples; otherwise exactly the error `makeSlots` throws, the first untyped entity's. |
| Generator.BuildIntentSchema | src/components/alexa/generator.ts:78-99 | One schema per prepared intent: its name, its slots and its samples. Otherwise the build fails with the error of the first intent whose schema fails, every earlier one succeeding; by `IntentSchemaFor`, that is this intent's `makeSlots` error. |
| Generator.MakeSlotsExample | spec/src/components/alexa/generator.spec.ts:142-228 | The entity tests: the custom mapping key, the configured entity type, and the missing-type error. |
| Generator.TypeFor | src/components/alexa/generator.ts:52-70 | A configured entity type renames the slot type and drops synonyms; otherwise the values are kept as given. |
| Generator.BuildCustomEntities | src/components/alexa/generator.ts:48-72 | One slot type per custom mapping entry, in order, each as `TypeFor` describes. |
| Generator.IsValidInvocationName | src/components/alexa/generator.ts:105 | The name check of `/^[a-z][a-z\s\.']*$/`: a name that passes holds no upper-case letter and no "-". |
| Generator.BuildFullSchema | src/components/alexa/generator.ts:102-119 | A valid invocation name is kept and an invalid one is replaced by the default; intents and types are kept. |
| Generator.InvocationNameExamples | spec/src/components/alexa/generator.spec.ts:286-301 | "WRONGinvocationName" and the default name itself fail the name check; "my skill's name." passes. |
| Generator.GenerateSchema | src/components/alexa/generator.ts:13-42 | Fails iff an intent's slots fail, and then with that build error, such as "Missing amazon configured type for parameter 'entity1'". Otherwise the schema holds the prepared intents' schemas, the `TypeFor` type of each custom entity in order, and the checked invocation name. |
| Deployment.FirstMatchFrom | src/components/alexa/deployment.ts:72 | Finds the leftmost position from which `schema_(..)\.json` matches, or reports that none exists. |
| Deployment.CountryCodeOf | src/components/alexa/deployment.ts:72-73 | A code exists iff the name matches somewhere. It is the two characters of the leftmost match. |
| Deployment.GetCountryCodes | src/components/alexa/deployment.ts:69-76 | A code occurs iff some file name carries it; each is two characters long, never more codes than files. |
| Deployment.GetCountryCodesEmpty | src/components/alexa/deployment.ts:69-76 | No file names give no codes. |
| Deployment.GetCountryCodesSnoc | src/components/alexa/deployment.ts:69-76 | The codes come in file order, one per matching name, duplicates kept: a further name appends its code when it has one. |
| Deployment.CountryCodeExample | spec/src/components/alexa/deployment.spec.ts:66 | "schema_de.json" yields "de"; "schema.json" yields nothing. |
| Deployment.LanguageMapping | src/components/alexa/deployment.ts:377-380 | "de" maps to de-DE and "en" to en-GB; every other code maps to itself. |
| Deployment.LanguageMappingInjective | src/components/alexa/deployment.ts:377-380 | Distinct two-character codes map to distinct locales. |
| Deployment.MappedLocales | src/components/alexa/deployment.ts:295 | One locale per country code, in order. |
| Deployment.LocalesOf | src/components/alexa/deployment.ts:303-311 | The merged object has exactly the mapped locales as keys, each with the invocation name. |
| Deployment.GenerateLocalesDefinition | src/components/alexa/deployment.ts:291-314 | No new definition iff the configured locales equal the mapped codes as multisets (sorted-array comparison). Otherwise one entry per mapped locale with the invocation name. |
| Deployment.LocalesExample | spec/src/components/alexa/deployment.spec.ts:247-268 | de-DE plus en-GB deployed with "de" is rewritten to de-DE alone. de-DE with "de" is left as it is. |
| Deployment.Lookup | src/components/alexa/deployment.ts:157-163 | An empty path finds the value itself iff it is truthy. A falsy value or a missing first key finds nothing. Otherwise the result is that of the rest of the path from the first key's value, and a found value is truthy. |
| Deployment.Status | src/components/alexa/deployment.ts:153-167 | The status is always truthy. It is the reply's value at the locale's status path, or "ERROR". |
| Deployment.StatusExamples | spec/src/components/alexa/deployment.spec.ts:312-330 | The test reply reads as SUCCEEDED for "de". A missing locale or an empty status reads as "ERROR". |
| Deployment.StatusOfReply | src/components/alexa/deployment.ts:157-166 | A reply with a status under the code's locale reads as that status; an empty status reads as "ERROR". |
| Deployment.WhileModelTrainingIsInProgress | src/components/alexa/deployment.ts:182-218 | Every tick before the settling one was IN_PROGRESS and not timed out. Resolves when the status leaves IN_PROGRESS, even past the timeout. Rejects with the timeout message only when still IN_PROGRESS after more than 120000 ms. Pending otherwise. |
| Deployment.ResolveWinsScenario | src/components/alexa/deployment.ts:189-197 | A tick past the timeout whose status has left IN_PROGRESS resolves. |
| Deployment.TimeoutScenario | spec/src/components/alexa/deployment.spec.ts:349-407 | IN_PROGRESS at exactly 120000 ms continues; past it, the wait rejects with the timeout message. |
| Deployment.SplitDots | src/components/alexa/deployment.ts:245 | `split(".")` yields at least one piece, and no piece holds a dot. |
| Deployment.DigitsValue | src/components/alexa/deployment.ts:242-247 | The value of a digit string is below ten to the power of its length. |
| Deployment.DigitsValueAppend | src/components/alexa/deployment.ts:243-247 | Digit strings run together: the value of x followed by y is x's value shifted left by y's length in decimal places, plus y's value. This is what joining the components after deleting the dots computes. |
| Deployment.StripDots | src/components/alexa/deployment.ts:243-246 | `split(".").join("")` leaves every non-dot character and no dot. |
| Deployment.Trim | src/components/alexa/deployment.ts:242 | `Number` ignores surrounding white space: the result neither starts nor ends with it. |
| Deployment.TrimIsInfix | src/components/alexa/deployment.ts:242 | The trimmed text is a slice of the input with only white space before and after it. |
| Deployment.ParseNumber | src/components/alexa/deployment.ts:242-247 | Blank reads as 0, a digit string as its value, anything else as NaN. |
| Deployment.ParseDigits | src/components/alexa/deployment.ts:242-247 | `Number` reads a non-empty digit string as its decimal value. |
| Deployment.IsAskInstalledAsWritten | src/components/alexa/deployment.ts:224-252 | A missing tool gives false. Accepts iff the digits read as one number reach 162. Any other version throws the unsupported-version error. |
| Deployment.AsWrittenReading | src/components/alexa/deployment.ts:241-251 | On a version x.y.z of digit strings, the written gate accepts iff the digits of x, y and z run together reach 162. |
| Deployment.AsWrittenAcceptsOlderVersion | src/components/alexa/deployment.ts:241-247 | The written gate accepts 1.5.10; the intended gate refuses it. |
| Deployment.IsAskInstalled | src/components/alexa/deployment.ts:240-251 | A missing tool gives false. Accepts iff the version parses and is at least 1.6.2 component by component. Any other version throws the unsupported-version error. |
| Deployment.IntendedReading | src/components/alexa/deployment.ts:240-251 | On a version x.y.z of digit strings, the intended gate accepts iff (x, y, z) reaches 1.6.2 component by component. |
| Deployment.AtLeastMinimum | src/components/alexa/deployment.ts:240 | A version a.b.c reaches 1.6.2 iff a > 1, or a = 1 and (b > 6, or b = 6 and c ≥ 2). |
| Deployment.GatesAgreeOnSingleDigits | src/components/alexa/deployment.ts:241-251 | With single-digit components, the written and intended gates give the same answer. |
| Deployment.GateVersionCases | src/components/alexa/deployment.ts:240 | The intended gate refuses 1.6.0 and accepts 1.6.2 and the later 1.10.0. |
| Deployment.PlanWithGate | src/components/alexa/deployment.ts:23-46 | No country code throws "no configuration", whatever the gate says. Otherwise a gate error propagates, a missing tool skips the deployment, and an accepted tool uploads every code under its locale. |
| Deployment.PlanDeployment | src/components/alexa/deployment.ts:23-46 | `execute` as written, with the digit-concatenating gate. "No configuration" iff there is no code; the tool is missing iff there is a code and no version. It uploads every code under its locale iff there is a code and the dot-stripped version reads as a number of at least 162. |
| Deployment.PlanDeploymentCorrected | src/components/alexa/deployment.ts:23-46 | `execute` with the intended gate. It uploads iff there is a code and the version parses and reaches 1.6.2 component by component. |
| Deployment.PlansDisagreeOnOlderVersion | src/components/alexa/deployment.ts:33-34 | With ask-cli 1.5.10 and any schema to deploy, `execute` as written uploads, and with the intended gate it throws the unsupported-version error. |

## Findings

| source | as written | input that shows it | evidently intended | confidence | as-written member | corrected member |
|---|---|---|---|---|---|---|
| src/components/alexa/deployment.ts:241-251 | The ask-cli version is checked by deleting its dots and reading the digits as one number, then comparing with 162. | `ask --version` printing 1.5.10: "1510" ≥ 162, so the older release passes the gate. | Accept exactly the versions from 1.6.2 on, comparing major, minor and patch in turn. The comment at line 240 and the error message both name version 1.6.2. | not executed | Deployment.AsWrittenAcceptsOlderVersion | Deployment.IsAskInstalled |

The written gate is right for single-digit components (`Deployment.GatesAgreeOnSingleDigits`). It goes wrong once a component has two digits: 1.5.10 is accepted, and 1.10.0 is accepted only because "1100" happens to exceed 162. `Deployment.PlanDeployment` models `execute` with the gate as written. `Deployment.PlanDeploymentCorrected` uses the corrected gate, and `Deployment.PlansDisagreeOnOlderVersion` shows where the two plans part.

## Left out

- Signature verification by the alexa-verifier package is a function parameter. Its cryptography, and the `JSON.stringify` of the body handed to it, are not modelled.
- Promises, callbacks and logging are not modelled: the `fits`/`extract` wrappers, the handler's promise-valued setters and the console output of the generator and deployment.
- `process.env.FORCED_ALEXA_OAUTH_TOKEN` is an optional parameter of `GetUser` and `Extract`.
- File and process I/O are not modelled: `readdirSync`, `writeFileSync`, `mkdirSync`, `execSync` of the ask-cli commands, and the backup and export steps of `deploySkillSchema` and `deployModelSchema`. Their results enter the model as parameters.
- `Date.now` and `setInterval` are replaced by the sequence of observed ticks, each with its reply and elapsed time.
- Deployment.WhileModelTrainingIsInProgress: describes only the ticks it is given. An interval that never settles is left `Pending`, because an unbounded wait cannot be a finite value.
- Deployment.WhileModelTrainingIsInProgress: does not model the timeout log line. The source prints it even after a resolve, which a later reject cannot change.
- `getRequestTimestamp` and `getSessionID` copy one field each. They appear only as `Extract`'s postconditions.
- `isIntentRequest` appears only inside `GetEntities`.
- The four request kinds the extractor distinguishes are modelled. Other request types are not.
- Extraction.RequestExtractor.Extract: requires a session, because the source dereferences `session!` and would fail without one.
- JavaScript `null` and `undefined` are one `None`, except for slot values, where the entity filter tells them apart.
- The envelope the handler builds is updated in place by each step in the source. The model passes it along as a value, so aliasing of the envelope is not captured.
- Caller-owned configuration objects are treated as values. The in-place `utterances` rewrite in `prepareConfiguration` is captured only through its result.
- The handler's mixins (`BasicHandler`, card, reprompt and session-data mixins) and `handle.ts` are not part of this model. Their resolved answer is the `AnswerState` input.
- `JSON.parse` and `JSON.stringify` of CLI replies and skill files are not modelled. Replies enter as `Json` values, and the sorted-array comparison in `generateLocalesDefinition` is a multiset comparison.
- Deployment.LanguageMapping: a code naming an `Object.prototype` property, such as "constructor", would read that property in the source. The model maps such a code to itself.
- Deployment.Status: reads only own object properties. A property inherited by strings or arrays (such as "length") is not modelled.
- JavaScript strings are sequences of UTF-16 code units; the model's strings are sequences of Unicode characters. So `..` in `/schema_(..)\.json/` matches two code units in the source and two characters in `Deployment.MatchesAt`; they differ on file names with characters outside the Basic Multilingual Plane.
- Deployment.ParseNumber: covers blank and decimal digit strings. Signs, decimal points, exponents, hexadecimal and `Infinity` read as NaN, although `Number` accepts them. A version with its dots removed holds no dot, and no released version holds the other forms.
- Generator: object key order for integer-like keys is not modelled; keys are visited in the order given. The lookups `parameterMapping[name]`, `customEntityMapping[...]` and `config.entities[...]` read only own properties: a key naming an `Object.prototype` property, such as "constructor", would read that property in the source. The entity map of the configuration is always present, as the descriptor's default supplies it.
- Generator.PrepareConfiguration: the speakability test on generic intents is a function parameter. It comes from the framework.
