/** Interaction-model generation: from the framework's intent configurations and
    entity mappings to the Alexa skill schema (invocation name, intents with
    slots and sample utterances, custom slot types). */
module Generator {
  import opened Common
  import opened IntentDict
  import opened Sequences

  /** One intent the framework declares: a generic or named intent, its
      utterances (possibly absent) and the entity names it uses. */
  datatype IntentConfiguration = IntentConfiguration(
    intent: Intent,
    utterances: Option<seq<string>>,
    entities: seq<string>)

  /** A configuration after the utterance pass: its utterances are present. */
  type UtteredConfiguration = c: IntentConfiguration | c.utterances.Some?
    witness IntentConfiguration(Named(""), Some([]), [])

  /** A configuration ready for the schema: its intent is an Alexa intent name. */
  datatype PreparedIntent = PreparedIntent(intent: string, utterances: seq<string>, entities: seq<string>)

  /** A value of a custom entity, with optional synonyms. */
  datatype ValuePair = ValuePair(value: string, synonyms: Option<seq<string>>)

  /** The custom entity mapping: entity type to its values, in key order. */
  type CustomEntityMapping = seq<(string, seq<ValuePair>)>

  datatype Slot = Slot(name: string, slotType: Option<string>)

  datatype IntentSchema = IntentSchema(name: string, slots: seq<Slot>, samples: seq<string>)

  datatype TypeValue = TypeValue(name: ValuePair)

  datatype TypeSchema = TypeSchema(name: string, values: seq<TypeValue>)

  datatype FullSchema = FullSchema(invocationName: string, intents: seq<IntentSchema>, types: seq<TypeSchema>)

  const DefaultInvocationName: string := "setup-your-invocation-name-in-config"

  // ---------------------------------------------------------------------------
  // Utterance placeholders: `utterance.replace(/\{\{(.*?)\}\}/g, ...)`.

  /** The position of the last "|" in `v`, if any. */
  function LastBar(v: string): (r: Option<nat>)
    ensures r.None? ==> forall i :: 0 <= i < |v| ==> v[i] != '|'
    ensures r.Some? ==> r.value < |v| && v[r.value] == '|'
    ensures r.Some? ==> forall i :: r.value < i < |v| ==> v[i] != '|'
  {
    if |v| == 0 then None
    else if v[|v| - 1] == '|' then Some(|v| - 1)
    else
      var init := v[..|v| - 1];
      assert forall i :: 0 <= i < |init| ==> init[i] == v[i];
      LastBar(init)
  }

  /** The text after the last "|" (`value.split("|").pop()`): all of `v` when
      it has no "|". */
  function LastSegment(v: string): (r: string)
    ensures '|' !in r
    ensures '|' !in v ==> r == v
    ensures '|' in v ==> exists i :: 0 <= i < |v| && v[i] == '|' && r == v[i + 1..]
  {
    var bar := LastBar(v);
    if bar.Some? then v[bar.value + 1..] else v
  }

  /** "}}" starts at position `j` of `u`. */
  predicate ClosesAt(u: string, j: nat)
  {
    j + 2 <= |u| && u[j] == '}' && u[j + 1] == '}'
  }

  /** Where the lazy `(.*?)\}\}` starting at `k` stops: the first "}}" at or
      after `k`, provided no line terminator comes before it. */
  function ClosingFrom(u: string, k: nat): (r: Option<nat>)
    requires k <= |u|
    ensures r.Some? ==> k <= r.value && ClosesAt(u, r.value)
    ensures r.Some? ==> forall j :: k <= j < r.value ==> !IsLineTerminator(u[j]) && !ClosesAt(u, j)
    decreases |u| - k
  {
    if k + 2 > |u| then None
    else if ClosesAt(u, k) then Some(k)
    else if IsLineTerminator(u[k]) then None
    else ClosingFrom(u, k + 1)
  }

  /** The utterance with every `{{...}}` placeholder replaced by `{x}`, where x
      is the text after the placeholder's last "|"; scanning resumes after
      each replaced placeholder, as a global regular expression does. */
  function Rewrite(u: string): (r: string)
    ensures '{' !in u ==> r == u
    decreases |u|
  {
    if |u| < 2 then u
    else if u[0] == '{' && u[1] == '{' && ClosingFrom(u, 2).Some? then
      var k := ClosingFrom(u, 2).value;
      "{" + LastSegment(u[2..k]) + "}" + Rewrite(u[k + 2..])
    else
      assert '{' !in u ==> '{' !in u[1..];
      assert u == [u[0]] + u[1..];
      [u[0]] + Rewrite(u[1..])
  }

  lemma {:induction false} ClosingFromReaches(u: string, k: nat, t: nat)
    requires k <= t && t + 2 <= |u| && u[t] == '}' && u[t + 1] == '}'
    requires forall j :: k <= j < t ==> u[j] != '}' && !IsLineTerminator(u[j])
    ensures ClosingFrom(u, k) == Some(t)
    decreases t - k
  {
    if k < t {
      ClosingFromReaches(u, k + 1, t);
    }
  }

  /** Text without "{" is copied unchanged. */
  lemma {:induction false} RewriteLiteral(a: string, s: string)
    requires '{' !in a
    ensures Rewrite(a + s) == a + Rewrite(s)
    decreases |a|
  {
    if |a| > 0 {
      var u := a + s;
      assert u[0] == a[0] && u[0] != '{';
      assert u[1..] == a[1..] + s;
      RewriteLiteral(a[1..], s);
      assert a == [a[0]] + a[1..];
      if |u| >= 2 {
        assert Rewrite(u) == [u[0]] + Rewrite(u[1..]);
        assert [a[0]] + (a[1..] + Rewrite(s)) == a + Rewrite(s);
      } else {
        assert s == [] && u == a;
      }
    } else {
      assert a + s == s;
    }
  }

  /** `{{x}}` */
  function Placeholder(x: string): string
  {
    "{{" + x + "}}"
  }

  /** `{x}` */
  function Braced(x: string): string
  {
    "{" + x + "}"
  }

  /** No line terminator occurs in `x`. */
  predicate OnOneLine(x: string)
  {
    forall i :: 0 <= i < |x| ==> !IsLineTerminator(x[i])
  }

  /** A placeholder without "}" or line terminators inside becomes `{x}` for its
      last "|"-segment x, and the rest is rewritten on its own. */
  lemma RewritePlaceholder(x: string, s: string)
    requires '}' !in x && OnOneLine(x)
    ensures Rewrite(Placeholder(x) + s) == Braced(LastSegment(x)) + Rewrite(s)
  {
    var u := Placeholder(x) + s;
    var t := 2 + |x|;
    forall j | 2 <= j < t ensures u[j] != '}' && !IsLineTerminator(u[j]) {
      assert u[j] == x[j - 2];
    }
    ClosingFromReaches(u, 2, t);
    assert u[2..t] == x;
    assert u[t + 2..] == s;
  }

  /** `a|b`: an example value and its slot name. */
  function Barred(a: string, b: string): string
  {
    a + "|" + b
  }

  /** The segment after a "|" that is followed by no other "|". */
  lemma LastSegmentAfterBar(a: string, b: string)
    requires '|' !in b
    ensures LastSegment(Barred(a, b)) == b
  {
    var v := Barred(a, b);
    assert v[|a|] == '|';
    var r := LastSegment(v);
    var i :| 0 <= i < |v| && v[i] == '|' && r == v[i + 1..];
    assert v[|a| + 1..] == b;
  }

  /** The last "|"-segments of the placeholders in the generator's tests. */
  lemma LastSegmentExamples()
    ensures LastSegment(Barred("world", "type")) == "type"
    ensures LastSegment(Barred("you", "type2")) == "type2"
  {
    LastSegmentAfterBar("world", "type");
    LastSegmentAfterBar("you", "type2");
  }

  /** Literal text followed by a placeholder, twice: the literal text is kept
      and each placeholder becomes its last "|"-segment in braces. */
  lemma RewriteTwoPlaceholders(p1: string, x1: string, p2: string, x2: string)
    requires '{' !in p1 && '{' !in p2 && '}' !in x1 && '}' !in x2 && OnOneLine(x1) && OnOneLine(x2)
    ensures Rewrite(p1 + (Placeholder(x1) + (p2 + Placeholder(x2))))
            == p1 + (Braced(LastSegment(x1)) + (p2 + Braced(LastSegment(x2))))
  {
    var second := Placeholder(x2);
    RewritePlaceholder(x2, []);
    assert second + [] == second;
    assert Rewrite([]) == [];
    assert Braced(LastSegment(x2)) + [] == Braced(LastSegment(x2));
    RewriteLiteral(p2, second);
    RewritePlaceholder(x1, p2 + second);
    RewriteLiteral(p1, Placeholder(x1) + (p2 + second));
  }

  /** The multi-placeholder utterance of the generator's tests,
      "hello {{world|type}}, how are {{you|type2}}", becomes
      "hello {type}, how are {type2}". */
  lemma RewriteExample()
    ensures Rewrite("hello " + (Placeholder(Barred("world", "type")) + (", how are " + Placeholder(Barred("you", "type2")))))
            == "hello " + (Braced("type") + (", how are " + Braced("type2")))
  {
    LastSegmentExamples();
    assert OnOneLine(Barred("world", "type")) && OnOneLine(Barred("you", "type2"));
    RewriteTwoPlaceholders("hello ", Barred("world", "type"), ", how are ", Barred("you", "type2"));
  }

  /** The samples of an intent: rewritten utterances without duplicates. */
  function Samples(utterances: seq<string>): (r: seq<string>)
    ensures forall x :: x in r <==> exists i :: 0 <= i < |utterances| && x == Rewrite(utterances[i])
    ensures forall i, j :: 0 <= i < j < |r| ==> r[i] != r[j]
  {
    var rewritten := seq(|utterances|, i requires 0 <= i < |utterances| => Rewrite(utterances[i]));
    assert forall x :: x in rewritten <==> exists i :: 0 <= i < |utterances| && x == Rewrite(utterances[i]) by {
      forall x | x in rewritten ensures exists i :: 0 <= i < |utterances| && x == Rewrite(utterances[i]) {
        var i :| 0 <= i < |rewritten| && rewritten[i] == x;
        assert x == Rewrite(utterances[i]);
      }
      forall x | exists i :: 0 <= i < |utterances| && x == Rewrite(utterances[i]) ensures x in rewritten {
        var i :| 0 <= i < |utterances| && x == Rewrite(utterances[i]);
        assert rewritten[i] == x;
      }
    }
    Dedup(rewritten)
  }

  // ---------------------------------------------------------------------------
  // prepareConfiguration

  /** First pass: named intents and speakable generic intents stay. */
  function SpeakableStep(isSpeakable: GenericIntent -> bool, c: IntentConfiguration): Option<IntentConfiguration>
  {
    if c.intent.Named? || isSpeakable(c.intent.generic) then Some(c) else None
  }

  /** Second pass, one configuration: a named intent without utterances is
      dropped (with a warning); a generic intent's utterances are cleared. */
  function UtteranceStep(c: IntentConfiguration): Option<UtteredConfiguration>
  {
    if c.intent.Named? && (c.utterances.None? || |c.utterances.value| == 0) then None
    else if c.intent.Generic? then Some(c.(utterances := Some([])))
    else Some(c)
  }

  /** Third pass, one configuration: the intent as an Alexa name; a generic
      intent without an Amazon name yields no string and is dropped. */
  function ConvertStep(c: UtteredConfiguration): Option<PreparedIntent>
  {
    match c.intent
    case Named(name) => Some(PreparedIntent(name, c.utterances.value, c.entities))
    case Generic(g) =>
      if g in GenericToAmazon then Some(PreparedIntent(GenericToAmazon[g], c.utterances.value, c.entities))
      else None
  }

  /** What preparation makes of one configuration, stated directly. */
  function PrepareOne(isSpeakable: GenericIntent -> bool, c: IntentConfiguration): (r: Option<PreparedIntent>)
    ensures c.intent.Named? ==>
      (r.Some? <==> c.utterances.Some? && c.utterances.value != [])
    ensures c.intent.Named? && r.Some? ==>
      r.value == PreparedIntent(c.intent.name, c.utterances.value, c.entities)
    ensures c.intent.Generic? ==>
      (r.Some? <==> isSpeakable(c.intent.generic) && c.intent.generic in {Yes, No, Help, Cancel, Stop})
    ensures c.intent.Generic? && r.Some? ==>
      r.value.utterances == [] && r.value.entities == c.entities &&
      r.value.intent in AmazonToGeneric && AmazonToGeneric[r.value.intent] == c.intent.generic
  {
    GenericToAmazonKeys();
    match c.intent
    case Named(name) =>
      if c.utterances.None? || c.utterances.value == [] then None
      else Some(PreparedIntent(name, c.utterances.value, c.entities))
    case Generic(g) =>
      if isSpeakable(g) && g in GenericToAmazon then
        GenericRoundTrip(g);
        Some(PreparedIntent(GenericToAmazon[g], [], c.entities))
      else None
  }

  /** The first pass as a step function. */
  function SpeakableFilter(isSpeakable: GenericIntent -> bool): IntentConfiguration -> Option<IntentConfiguration>
  {
    c => SpeakableStep(isSpeakable, c)
  }

  /** The first two passes, one configuration at a time. */
  function SpeakableAndUttered(isSpeakable: GenericIntent -> bool): IntentConfiguration -> Option<UtteredConfiguration>
  {
    c => if SpeakableStep(isSpeakable, c).Some? then UtteranceStep(SpeakableStep(isSpeakable, c).value) else None
  }

  /** The whole preparation, one configuration at a time. */
  function Preparation(isSpeakable: GenericIntent -> bool): IntentConfiguration -> Option<PreparedIntent>
  {
    c => PrepareOne(isSpeakable, c)
  }

  /** Running the three passes on one configuration gives its preparation. */
  lemma PassesAgree(isSpeakable: GenericIntent -> bool, c: IntentConfiguration)
    ensures var u := SpeakableAndUttered(isSpeakable)(c);
            PrepareOne(isSpeakable, c) == if u.Some? then ConvertStep(u.value) else None
  {
    GenericToAmazonKeys();
  }

  /** The three passes over a whole list give the per-configuration preparation. */
  lemma PassesCompose(configs: seq<IntentConfiguration>, isSpeakable: GenericIntent -> bool)
    ensures FilterMap(FilterMap(FilterMap(configs, SpeakableFilter(isSpeakable)), UtteranceStep), ConvertStep)
            == FilterMap(configs, Preparation(isSpeakable))
  {
    FilterMapCompose(configs, SpeakableFilter(isSpeakable), UtteranceStep, SpeakableAndUttered(isSpeakable));
    forall c ensures Preparation(isSpeakable)(c) ==
        (if SpeakableAndUttered(isSpeakable)(c).Some? then ConvertStep(SpeakableAndUttered(isSpeakable)(c).value) else None)
    {
      PassesAgree(isSpeakable, c);
    }
    FilterMapCompose(configs, SpeakableAndUttered(isSpeakable), ConvertStep, Preparation(isSpeakable));
  }

  /** prepareConfiguration: the speakability filter, the utterance pass (a loop
      pushing the configurations it keeps) and the conversion to Alexa names.
      The result is the per-configuration preparation, in input order. */
  method PrepareConfiguration(configs: seq<IntentConfiguration>, isSpeakable: GenericIntent -> bool)
    returns (prepared: seq<PreparedIntent>)
    ensures prepared == FilterMap(configs, Preparation(isSpeakable))
  {
    var withoutUnspeakable := FilterMap(configs, SpeakableFilter(isSpeakable));
    var withoutUndefinedUtterances: seq<UtteredConfiguration> := [];
    for i := 0 to |withoutUnspeakable|
      invariant withoutUndefinedUtterances == FilterMap(withoutUnspeakable[..i], UtteranceStep)
    {
      assert withoutUnspeakable[..i + 1][..i] == withoutUnspeakable[..i];
      var config := withoutUnspeakable[i];
      if !(config.intent.Named? && (config.utterances.None? || |config.utterances.value| == 0)) {
        if config.intent.Generic? {
          config := config.(utterances := Some([]));
        }
        withoutUndefinedUtterances := withoutUndefinedUtterances + [config];
      }
    }
    assert withoutUnspeakable[..|withoutUnspeakable|] == withoutUnspeakable;
    prepared := FilterMap(withoutUndefinedUtterances, ConvertStep);
    PassesCompose(configs, isSpeakable);
  }

  /** The generator's test configurations: a speakable Yes intent keeps no
      utterances and becomes AMAZON.YesIntent; a named intent without
      utterances is dropped, and so is generic intent 11, which has no Amazon
      name whether or not it is speakable. */
  lemma PrepareExample(isSpeakable: GenericIntent -> bool)
    requires isSpeakable(Yes)
    ensures FilterMap([IntentConfiguration(Generic(Yes), Some(["Yes thats right"]), [])], Preparation(isSpeakable))
            == [PreparedIntent("AMAZON.YesIntent", [], [])]
    ensures FilterMap([IntentConfiguration(Named("noUtterances"), Some([]), [])], Preparation(isSpeakable)) == []
    ensures FilterMap([IntentConfiguration(Generic(OtherGeneric(11)), Some([]), [])], Preparation(isSpeakable)) == []
  {
    var yes := IntentConfiguration(Generic(Yes), Some(["Yes thats right"]), []);
    var p := PrepareOne(isSpeakable, yes);
    assert AmazonToGeneric["AMAZON.YesIntent"] == Yes;
    AmazonRoundTrip("AMAZON.YesIntent");
    assert p == Some(PreparedIntent("AMAZON.YesIntent", [], []));
    assert [yes][..0] == [];
  }

  // ---------------------------------------------------------------------------
  // makeSlots, buildIntentSchema

  predicate HasKey(mapping: CustomEntityMapping, key: string)
  {
    exists i :: 0 <= i < |mapping| && mapping[i].0 == key
  }

  function MissingTypeError(name: string): string
  {
    "Missing amazon configured type for parameter '" + name + "'"
  }

  /** The slot of one entity. Its mapped type is looked up by property access,
      so a missing mapping reads the property named "undefined". A custom type
      not configured for Alexa is used as it is; otherwise the configured Alexa
      type is used; otherwise the parameter has no type. */
  function SlotFor(name: string, parameterMapping: map<string, string>, customEntities: CustomEntityMapping,
                   entities: map<string, string>): (r: Result<Slot>)
    ensures
      var key := if name in parameterMapping then parameterMapping[name] else "undefined";
      && (r.Err? <==> key !in entities && !HasKey(customEntities, key))
      && (r.Err? ==> r.error == MissingTypeError(name))
      && (r.Ok? && key !in entities ==>
            r.value == Slot(name, if name in parameterMapping then Some(parameterMapping[name]) else None))
      && (r.Ok? && key in entities ==> r.value == Slot(name, Some(entities[key])))
  {
    var key := if name in parameterMapping then parameterMapping[name] else "undefined";
    if HasKey(customEntities, key) && key !in entities then
      Ok(Slot(name, if name in parameterMapping then Some(parameterMapping[name]) else None))
    else if key !in entities then
      Err(MissingTypeError(name))
    else
      Ok(Slot(name, Some(entities[key])))
  }

  /** makeSlots: one slot per entity name, in order; the first entity without a
      type makes the whole call throw. */
  function MakeSlots(parameters: seq<string>, parameterMapping: map<string, string>,
                     customEntities: CustomEntityMapping, entities: map<string, string>): (r: Result<seq<Slot>>)
    ensures r.Ok? <==> forall i :: 0 <= i < |parameters| ==> SlotFor(parameters[i], parameterMapping, customEntities, entities).Ok?
    ensures r.Ok? ==> |r.value| == |parameters|
    ensures r.Ok? ==> forall i :: 0 <= i < |parameters| ==>
                        r.value[i] == SlotFor(parameters[i], parameterMapping, customEntities, entities).value
    ensures r.Err? ==> exists i :: 0 <= i < |parameters| && r.error == MissingTypeError(parameters[i])
                         && SlotFor(parameters[i], parameterMapping, customEntities, entities).Err?
                         && forall j :: 0 <= j < i ==> SlotFor(parameters[j], parameterMapping, customEntities, entities).Ok?
  {
    var result := MapResult(parameters, name => SlotFor(name, parameterMapping, customEntities, entities));
    result
  }

  /** The schema entry of one prepared intent. */
  function IntentSchemaFor(p: PreparedIntent, parameterMapping: map<string, string>,
                           customEntities: CustomEntityMapping, entities: map<string, string>): (r: Result<IntentSchema>)
    ensures r.Ok? <==> forall i :: 0 <= i < |p.entities| ==> SlotFor(p.entities[i], parameterMapping, customEntities, entities).Ok?
    ensures r.Ok? ==> r.value.name == p.intent && r.value.samples == Samples(p.utterances)
    ensures r.Ok? ==> |r.value.slots| == |p.entities| && forall i :: 0 <= i < |p.entities| ==>
                        r.value.slots[i] == SlotFor(p.entities[i], parameterMapping, customEntities, entities).value
    ensures r.Err? ==> r == Err(MakeSlots(p.entities, parameterMapping, customEntities, entities).error)
  {
    var slots := MakeSlots(p.entities, parameterMapping, customEntities, entities);
    if slots.Err? then Err(slots.error) else Ok(IntentSchema(p.intent, slots.value, Samples(p.utterances)))
  }

  /** buildIntentSchema: one entry per prepared intent, in the same order, named
      after it, with its slots and its samples. */
  function BuildIntentSchema(prepared: seq<PreparedIntent>, parameterMapping: map<string, string>,
                             customEntities: CustomEntityMapping, entities: map<string, string>): (r: Result<seq<IntentSchema>>)
    ensures r.Ok? <==> forall i :: 0 <= i < |prepared| ==>
      MakeSlots(prepared[i].entities, parameterMapping, customEntities, entities).Ok?
    ensures r.Ok? ==> |r.value| == |prepared| && forall i :: 0 <= i < |prepared| ==>
      && r.value[i].name == prepared[i].intent
      && r.value[i].slots == MakeSlots(prepared[i].entities, parameterMapping, customEntities, entities).value
      && r.value[i].samples == Samples(prepared[i].utterances)
    ensures r.Err? ==> exists i :: (
              && 0 <= i < |prepared|
              && IntentSchemaFor(prepared[i], parameterMapping, customEntities, entities).Err?
              && r.error == IntentSchemaFor(prepared[i], parameterMapping, customEntities, entities).error
              && forall j :: 0 <= j < i ==> IntentSchemaFor(prepared[j], parameterMapping, customEntities, entities).Ok?)
  {
    MapResult(prepared, p => IntentSchemaFor(p, parameterMapping, customEntities, entities))
  }

  /** The entity example of the generator's tests: a custom type with no Alexa
      type configured names the slot after itself; with one configured the slot
      takes it; with neither the parameter is refused. */
  lemma MakeSlotsExample()
    ensures MakeSlots(["entity1"], map["entity1" := "ENTITIES_TYPE"], [("ENTITIES_TYPE", [ValuePair("entity1", None)])], map[])
            == Ok([Slot("entity1", Some("ENTITIES_TYPE"))])
    ensures MakeSlots(["entity1"], map["entity1" := "ENTITIES_TYPE"], [("ENTITIES_TYPE", [ValuePair("entity1", None)])],
                      map["ENTITIES_TYPE" := "@TYPE"])
            == Ok([Slot("entity1", Some("@TYPE"))])
    ensures MakeSlots(["entity1"], map["entity1" := "ENTITIES_TYPE"], [], map[])
            == Err("Missing amazon configured type for parameter 'entity1'")
  {
    var custom: CustomEntityMapping := [("ENTITIES_TYPE", [ValuePair("entity1", None)])];
    var mapping := map["entity1" := "ENTITIES_TYPE"];
    assert custom[0].0 == "ENTITIES_TYPE";
    assert HasKey(custom, "ENTITIES_TYPE");
    assert !HasKey([], "ENTITIES_TYPE");
    var r1 := MakeSlots(["entity1"], mapping, custom, map[]);
    assert SlotFor("entity1", mapping, custom, map[]) == Ok(Slot("entity1", Some("ENTITIES_TYPE")));
    assert r1.Ok? && |r1.value| == 1 && r1.value[0] == Slot("entity1", Some("ENTITIES_TYPE"));
    assert r1.value == [Slot("entity1", Some("ENTITIES_TYPE"))];
    var r2 := MakeSlots(["entity1"], mapping, custom, map["ENTITIES_TYPE" := "@TYPE"]);
    assert SlotFor("entity1", mapping, custom, map["ENTITIES_TYPE" := "@TYPE"]) == Ok(Slot("entity1", Some("@TYPE")));
    assert r2.Ok? && |r2.value| == 1 && r2.value[0] == Slot("entity1", Some("@TYPE"));
    assert r2.value == [Slot("entity1", Some("@TYPE"))];
    var r3 := MakeSlots(["entity1"], mapping, [], map[]);
    assert SlotFor("entity1", mapping, [], map[]).Err?;
    assert r3.Err? && r3.error == MissingTypeError("entity1");
  }

  // ---------------------------------------------------------------------------
  // buildCustomEntities

  /** The slot type for one custom entity: named after its configured Alexa type
      when there is one (each value stripped to its bare value), else after the
      entity type itself (values kept whole). */
  function TypeFor(entry: (string, seq<ValuePair>), entities: map<string, string>): (t: TypeSchema)
    ensures |t.values| == |entry.1|
    ensures entry.0 in entities ==> t.name == entities[entry.0]
    ensures entry.0 in entities ==> forall i :: 0 <= i < |entry.1| ==>
                                      t.values[i] == TypeValue(ValuePair(entry.1[i].value, None))
    ensures entry.0 !in entities ==> t.name == entry.0
    ensures entry.0 !in entities ==> forall i :: 0 <= i < |entry.1| ==> t.values[i] == TypeValue(entry.1[i])
  {
    if entry.0 !in entities then
      TypeSchema(entry.0, seq(|entry.1|, i requires 0 <= i < |entry.1| => TypeValue(entry.1[i])))
    else
      TypeSchema(entities[entry.0], seq(|entry.1|, i requires 0 <= i < |entry.1| => TypeValue(ValuePair(entry.1[i].value, None))))
  }

  /** buildCustomEntities: one slot type per custom entity, in key order. */
  method BuildCustomEntities(customEntities: CustomEntityMapping, entities: map<string, string>)
    returns (slotTypes: seq<TypeSchema>)
    ensures |slotTypes| == |customEntities|
    ensures forall i :: 0 <= i < |customEntities| ==> slotTypes[i] == TypeFor(customEntities[i], entities)
  {
    slotTypes := [];
    for i := 0 to |customEntities|
      invariant |slotTypes| == i
      invariant forall j :: 0 <= j < i ==> slotTypes[j] == TypeFor(customEntities[j], entities)
    {
      slotTypes := slotTypes + [TypeFor(customEntities[i], entities)];
    }
  }

  // ---------------------------------------------------------------------------
  // buildFullSchema

  /** `/^[a-z][a-z\s\.']*$/`. */
  predicate IsValidInvocationName(name: string)
    ensures IsValidInvocationName(name) ==> forall i :: 0 <= i < |name| ==> !('A' <= name[i] <= 'Z') && name[i] != '-'
  {
    && |name| > 0
    && 'a' <= name[0] <= 'z'
    && forall i :: 1 <= i < |name| ==> ('a' <= name[i] <= 'z') || IsJsSpace(name[i]) || name[i] == '.' || name[i] == '\''
  }

  /** buildFullSchema: the intents and types under the configured invocation
      name, or under the placeholder name when the configured one is invalid. */
  function BuildFullSchema(intents: seq<IntentSchema>, types: seq<TypeSchema>, invocationName: string): (r: FullSchema)
    ensures IsValidInvocationName(invocationName) ==> r.invocationName == invocationName
    ensures !IsValidInvocationName(invocationName) ==> r.invocationName == DefaultInvocationName
    ensures r.intents == intents && r.types == types
  {
    FullSchema(if IsValidInvocationName(invocationName) then invocationName else DefaultInvocationName, intents, types)
  }

  /** The placeholder name is itself not a valid invocation name (it contains
      "-"), and the upper-case name of the generator's tests is refused. */
  lemma InvocationNameExamples()
    ensures !IsValidInvocationName(DefaultInvocationName)
    ensures !IsValidInvocationName("WRONGinvocationName")
    ensures IsValidInvocationName("my skill's name.")
  {
    assert DefaultInvocationName[5] == '-';
  }

  // ---------------------------------------------------------------------------
  // execute, without the file system

  /** The schema `execute` writes: prepared intents, custom types and the intent
      schema under the invocation name. */
  method GenerateSchema(configs: seq<IntentConfiguration>, isSpeakable: GenericIntent -> bool,
                        parameterMapping: map<string, string>, customEntities: CustomEntityMapping,
                        entities: map<string, string>, invocationName: string)
    returns (r: Result<FullSchema>)
    ensures
      var prepared := FilterMap(configs, Preparation(isSpeakable));
      var intents := BuildIntentSchema(prepared, parameterMapping, customEntities, entities);
      && (r.Err? <==> intents.Err?)
      && (r.Err? ==> r.error == intents.error)
      && (r.Ok? ==> r.value.intents == intents.value && |r.value.types| == |customEntities|)
      && (r.Ok? ==> r.value == BuildFullSchema(intents.value, r.value.types, invocationName))
      && (r.Ok? ==> forall i :: 0 <= i < |customEntities| ==> r.value.types[i] == TypeFor(customEntities[i], entities))
  {
    var prepared := PrepareConfiguration(configs, isSpeakable);
    var customTypes := BuildCustomEntities(customEntities, entities);
    var intents := BuildIntentSchema(prepared, parameterMapping, customEntities, entities);
    if intents.Err? {
      return Err(intents.error);
    }
    r := Ok(BuildFullSchema(intents.value, customTypes, invocationName));
  }
}
