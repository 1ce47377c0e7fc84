/** Deployment helpers: which locales the built schemas are for, whether the
    skill's locale list must be rewritten, the ask-cli version gate, and the
    rule that waits for model training to leave IN_PROGRESS. The command-line
    tool's replies, the clock and the file names are inputs. */
module Deployment {
  import opened Common
  import opened Sequences

  // ---------------------------------------------------------------------------
  // getCountryCodes: `/schema_(..)\.json/` on each schema file name.

  /** The expression matches at position `i` of `name`: "schema_", two
      characters other than line terminators, ".json". */
  predicate MatchesAt(name: string, i: nat)
  {
    && i + 14 <= |name|
    && name[i..i + 7] == "schema_"
    && !IsLineTerminator(name[i + 7]) && !IsLineTerminator(name[i + 8])
    && name[i + 9..i + 14] == ".json"
  }

  /** The leftmost match at or after `k`. */
  function FirstMatchFrom(name: string, k: nat): (r: Option<nat>)
    requires k <= |name|
    ensures r.Some? ==> k <= r.value && MatchesAt(name, r.value)
    ensures r.Some? ==> forall j :: k <= j < r.value ==> !MatchesAt(name, j)
    ensures r.None? ==> forall j :: k <= j ==> !MatchesAt(name, j)
    decreases |name| - k
  {
    if k + 14 > |name| then None
    else if MatchesAt(name, k) then Some(k)
    else FirstMatchFrom(name, k + 1)
  }

  /** The country code a file name carries: the two characters captured by the
      leftmost match; none when the name does not match. */
  function CountryCodeOf(name: string): (r: Option<string>)
    ensures r.Some? <==> exists i :: MatchesAt(name, i)
    ensures r.Some? ==> |r.value| == 2
    ensures r.Some? ==> exists i :: MatchesAt(name, i) && r.value == name[i + 7..i + 9] &&
                                    forall j :: j < i ==> !MatchesAt(name, j)
  {
    var m := FirstMatchFrom(name, 0);
    if m.Some? then Some(name[m.value + 7..m.value + 9]) else None
  }

  /** getCountryCodes: the codes of the matching file names, in file order;
      names that do not match are dropped. */
  function GetCountryCodes(schemaFiles: seq<string>): (r: seq<string>)
    ensures |r| <= |schemaFiles|
    ensures forall c :: c in r <==> exists i :: 0 <= i < |schemaFiles| && CountryCodeOf(schemaFiles[i]) == Some(c)
    ensures forall i :: 0 <= i < |r| ==> |r[i]| == 2
  {
    var r := FilterMap(schemaFiles, CountryCodeOf);
    assert forall c :: c in r <==> exists i :: 0 <= i < |schemaFiles| && CountryCodeOf(schemaFiles[i]) == Some(c) by {
      forall c ensures c in r <==> exists i :: 0 <= i < |schemaFiles| && CountryCodeOf(schemaFiles[i]) == Some(c) {
        FilterMapMembers(schemaFiles, CountryCodeOf, c);
      }
    }
    assert forall i :: 0 <= i < |r| ==> |r[i]| == 2 by {
      forall i | 0 <= i < |r| ensures |r[i]| == 2 {
        assert r[i] in r;
      }
    }
    r
  }

  /** No file names, no codes. */
  lemma GetCountryCodesEmpty()
    ensures GetCountryCodes([]) == []
  {
  }

  /** One more file name adds its code at the end, when it has one: the codes
      come in file order, one per matching name, duplicates kept. */
  lemma {:induction false} GetCountryCodesSnoc(schemaFiles: seq<string>, name: string)
    ensures GetCountryCodes(schemaFiles + [name])
            == GetCountryCodes(schemaFiles) + (if CountryCodeOf(name).Some? then [CountryCodeOf(name).value] else [])
  {
    FilterMapAppend(schemaFiles, [name], CountryCodeOf);
    assert [name][..0] == [];
  }

  /** The file name of the deployment tests carries "de". */
  lemma CountryCodeExample()
    ensures CountryCodeOf("schema_de.json") == Some("de")
    ensures CountryCodeOf("schema.json") == None
  {
    var name := "schema_de.json";
    assert name[0..7] == "schema_" && name[9..14] == ".json" && name[7..9] == "de";
    assert MatchesAt(name, 0);
    assert FirstMatchFrom(name, 0) == Some(0);
  }

  // ---------------------------------------------------------------------------
  // languageMapping

  /** languageMapping: "de" and "en" get their locale; any other code is
      returned as it is. */
  function LanguageMapping(countryCode: string): (r: string)
    ensures countryCode == "de" ==> r == "de-DE"
    ensures countryCode == "en" ==> r == "en-GB"
    ensures countryCode != "de" && countryCode != "en" ==> r == countryCode
  {
    if countryCode == "de" then "de-DE"
    else if countryCode == "en" then "en-GB"
    else countryCode
  }

  /** Distinct two-character codes, the only codes file names yield, map to
      distinct locales. */
  lemma LanguageMappingInjective(a: string, b: string)
    requires |a| == 2 && |b| == 2 && a != b
    ensures LanguageMapping(a) != LanguageMapping(b)
  {
    assert |"de-DE"| == 5 && |"en-GB"| == 5;
    if a == "de" || a == "en" {
      if b != "de" && b != "en" {
        assert |LanguageMapping(b)| == 2;
      }
    } else if b == "de" || b == "en" {
      assert |LanguageMapping(a)| == 2;
    }
  }

  // ---------------------------------------------------------------------------
  // generateLocalesDefinition

  datatype LocaleEntry = LocaleEntry(name: string)

  /** The locales the country codes map to, in code order. */
  function MappedLocales(countryCodes: seq<string>): (r: seq<string>)
    ensures |r| == |countryCodes|
    ensures forall i :: 0 <= i < |r| ==> r[i] == LanguageMapping(countryCodes[i])
  {
    seq(|countryCodes|, i requires 0 <= i < |countryCodes| => LanguageMapping(countryCodes[i]))
  }

  /** The locales the country codes map to, as a set. */
  function LocaleSet(countryCodes: seq<string>): set<string>
  {
    set i | 0 <= i < |countryCodes| :: LanguageMapping(countryCodes[i])
  }

  /** Extending the codes by one adds its locale to the set. */
  lemma LocaleSetSnoc(init: seq<string>, last: string)
    ensures LocaleSet(init + [last]) == LocaleSet(init) + {LanguageMapping(last)}
  {
    var codes := init + [last];
    forall i | 0 <= i < |codes|
      ensures LanguageMapping(codes[i]) in LocaleSet(init) + {LanguageMapping(last)}
    {
      if i < |init| { assert codes[i] == init[i]; }
    }
    forall i | 0 <= i < |init|
      ensures LanguageMapping(init[i]) in LocaleSet(codes)
    {
      assert codes[i] == init[i];
    }
    assert codes[|init|] == last;
    assert LanguageMapping(codes[|init|]) in LocaleSet(codes);
  }

  /** The reduce over one-entry objects: every mapped locale with the
      invocation name. */
  function LocalesOf(countryCodes: seq<string>, invocationName: string): (m: map<string, LocaleEntry>)
    ensures m.Keys == LocaleSet(countryCodes)
    ensures forall k :: k in m ==> m[k] == LocaleEntry(invocationName)
  {
    if |countryCodes| == 0 then map[]
    else
      var init := countryCodes[..|countryCodes| - 1];
      var last := countryCodes[|countryCodes| - 1];
      LocaleSetSnoc(init, last);
      assert init + [last] == countryCodes;
      LocalesOf(init, invocationName)[LanguageMapping(last) := LocaleEntry(invocationName)]
  }

  /** generateLocalesDefinition: nothing when the configured locales, sorted,
      equal the mapped country codes, sorted (equal as multisets); otherwise one
      entry per mapped code, each carrying the invocation name. */
  function GenerateLocalesDefinition(configuredLocales: seq<string>, countryCodes: seq<string>, invocationName: string)
    : (r: Option<map<string, LocaleEntry>>)
    ensures r.None? <==> multiset(configuredLocales) == multiset(MappedLocales(countryCodes))
    ensures r.Some? ==> r.value.Keys == LocaleSet(countryCodes)
    ensures r.Some? ==> forall k :: k in r.value ==> r.value[k] == LocaleEntry(invocationName)
  {
    if multiset(configuredLocales) == multiset(MappedLocales(countryCodes)) then None
    else Some(LocalesOf(countryCodes, invocationName))
  }

  /** The deployment tests: a skill configured for de-DE and en-GB, deployed
      with only "de", is rewritten to de-DE alone; one configured for de-DE is
      left as it is. */
  lemma LocalesExample(name: string)
    ensures GenerateLocalesDefinition(["de-DE", "en-GB"], ["de"], name) == Some(map["de-DE" := LocaleEntry(name)])
    ensures GenerateLocalesDefinition(["de-DE"], ["de"], name) == None
  {
    assert MappedLocales(["de"]) == ["de-DE"];
    assert multiset(["de-DE", "en-GB"]) != multiset(["de-DE"]) by {
      assert multiset(["de-DE", "en-GB"])["en-GB"] == 1;
    }
    var m := GenerateLocalesDefinition(["de-DE", "en-GB"], ["de"], name).value;
    assert LocaleSet(["de"]) == {"de-DE"} by {
      LocaleSetSnoc([], "de");
      assert [] + ["de"] == ["de"];
    }
    assert m == map["de-DE" := LocaleEntry(name)];
  }

  // ---------------------------------------------------------------------------
  // status

  /** A property read: only objects carry the properties this lookup uses. */
  function Field(v: Json, key: string): Option<Json>
  {
    if v.JObject? && key in v.fields then Some(v.fields[key]) else None
  }

  /** `v && v.k1 && v.k1.k2 && ...`: the value at the end of the path when every
      link on the way, and the value itself, is truthy. */
  function Lookup(v: Json, path: seq<string>): (r: Option<Json>)
    ensures r.Some? ==> Truthy(r.value)
    ensures r.Some? && |path| > 0 ==> Field(v, path[0]).Some? && Lookup(Field(v, path[0]).value, path[1..]) == r
    ensures r.None? && Truthy(v) && |path| > 0 && Field(v, path[0]).Some? ==> Lookup(Field(v, path[0]).value, path[1..]).None?
    ensures |path| == 0 ==> r == (if Truthy(v) then Some(v) else None)
    ensures |path| > 0 && (!Truthy(v) || Field(v, path[0]).None?) ==> r.None?
    decreases |path|
  {
    if !Truthy(v) then None
    else if |path| == 0 then Some(v)
    else
      var next := Field(v, path[0]);
      if next.None? then None else Lookup(next.value, path[1..])
  }

  const StatusError: Json := JString("ERROR")

  /** status: `interactionModel[locale].lastUpdateRequest.status` of the parsed
      reply, or "ERROR" when a link is missing or falsy. The result is never
      falsy. */
  function Status(reply: Json, countryCode: string): (r: Json)
    ensures Truthy(r)
    ensures var found := Lookup(reply, ["interactionModel", LanguageMapping(countryCode), "lastUpdateRequest", "status"]);
            r == if found.Some? then found.value else StatusError
  {
    var found := Lookup(reply, ["interactionModel", LanguageMapping(countryCode), "lastUpdateRequest", "status"]);
    if found.Some? then found.value else StatusError
  }

  /** A skill-status reply carrying `status` for one locale. */
  function StatusReply(locale: string, status: string): Json
  {
    JObject(map["interactionModel" := JObject(map[locale := JObject(map["lastUpdateRequest" :=
      JObject(map["status" := JString(status)])])])])
  }

  /** The replies of the deployment tests: the status for de-DE is read for
      "de"; a reply without it, or with an empty status, reads as "ERROR". */
  lemma StatusExamples()
    ensures Status(StatusReply("de-DE", "SUCCEEDED"), "de") == JString("SUCCEEDED")
    ensures Status(StatusReply("en-GB", "SUCCEEDED"), "de") == StatusError
    ensures Status(StatusReply("de-DE", ""), "de") == StatusError
  {
    StatusOfReply("de", "SUCCEEDED");
    StatusOfReply("de", "");
  }

  /** A reply carrying a status for the code's locale reads as that status;
      an empty status reads as "ERROR". */
  lemma StatusOfReply(countryCode: string, status: string)
    ensures Status(StatusReply(LanguageMapping(countryCode), status), countryCode)
         == if status != "" then JString(status) else StatusError
  {
    var locale := LanguageMapping(countryCode);
    var path := ["interactionModel", locale, "lastUpdateRequest", "status"];
    assert path[1..] == [locale, "lastUpdateRequest", "status"];
    assert path[1..][1..] == ["lastUpdateRequest", "status"];
    assert path[1..][1..][1..] == ["status"];
    assert path[1..][1..][1..][1..] == [];
  }

  // ---------------------------------------------------------------------------
  // whileModelTrainingIsInProgress and checkTimeout

  /** One firing of the one-second interval: the parsed skill-status reply and
      the milliseconds elapsed since the wait started. */
  datatype Tick = Tick(reply: Json, elapsed: int)

  /** How the wait stands after the observed ticks. */
  datatype PollOutcome = Resolved | Rejected(reason: string) | Pending

  const TimeoutMillis: int := 120000
  const TimeoutMessage: string := "Model training runs in a timeout exception."

  predicate InProgress(t: Tick, countryCode: string)
  {
    Status(t.reply, countryCode) == JString("IN_PROGRESS")
  }

  /** checkTimeout's test. */
  predicate TimedOut(t: Tick)
  {
    t.elapsed > TimeoutMillis
  }

  /** whileModelTrainingIsInProgress: each tick resolves when the status has left
      IN_PROGRESS, then checks the timeout, which rejects only a promise still
      pending; the interval stops at the first settling tick. `used` is the
      number of ticks that fired. */
  method WhileModelTrainingIsInProgress(ticks: seq<Tick>, countryCode: string) returns (outcome: PollOutcome, used: nat)
    ensures used <= |ticks|
    ensures forall j :: 0 <= j < used - 1 ==> InProgress(ticks[j], countryCode) && !TimedOut(ticks[j])
    ensures outcome.Pending? ==> used == |ticks| && forall j :: 0 <= j < |ticks| ==> InProgress(ticks[j], countryCode) && !TimedOut(ticks[j])
    ensures outcome.Resolved? ==> 0 < used && !InProgress(ticks[used - 1], countryCode)
    ensures outcome.Rejected? ==> 0 < used && InProgress(ticks[used - 1], countryCode) && TimedOut(ticks[used - 1])
    ensures outcome.Rejected? ==> outcome.reason == TimeoutMessage
  {
    outcome := Pending;
    used := 0;
    while used < |ticks| && outcome.Pending?
      invariant used <= |ticks|
      invariant forall j :: 0 <= j < used - 1 ==> InProgress(ticks[j], countryCode) && !TimedOut(ticks[j])
      invariant outcome.Pending? ==> forall j :: 0 <= j < used ==> InProgress(ticks[j], countryCode) && !TimedOut(ticks[j])
      invariant outcome.Resolved? ==> 0 < used && !InProgress(ticks[used - 1], countryCode)
      invariant outcome.Rejected? ==> 0 < used && InProgress(ticks[used - 1], countryCode) && TimedOut(ticks[used - 1])
      invariant outcome.Rejected? ==> outcome.reason == TimeoutMessage
    {
      var state := Status(ticks[used].reply, countryCode);
      if state != JString("IN_PROGRESS") {
        outcome := Resolved;
      }
      if ticks[used].elapsed > TimeoutMillis {
        if outcome.Pending? {
          outcome := Rejected(TimeoutMessage);
        }
      }
      used := used + 1;
    }
  }

  /** A tick that both leaves IN_PROGRESS and is past the timeout resolves: the
      resolve comes first. */
  method ResolveWinsScenario() returns (outcome: PollOutcome, used: nat)
    ensures outcome == Resolved && used == 1
  {
    StatusOfReply("de", "SUCCEEDED");
    outcome, used := WhileModelTrainingIsInProgress([Tick(StatusReply("de-DE", "SUCCEEDED"), 130000)], "de");
  }

  /** Training still in progress past two minutes rejects with the timeout
      message; at exactly two minutes the wait goes on. */
  method TimeoutScenario() returns (outcome: PollOutcome, used: nat)
    ensures outcome == Rejected(TimeoutMessage) && used == 2
  {
    var inProgress := StatusReply("de-DE", "IN_PROGRESS");
    StatusOfReply("de", "IN_PROGRESS");
    var ticks := [Tick(inProgress, 120000), Tick(inProgress, 121000)];
    assert InProgress(ticks[0], "de") && !TimedOut(ticks[0]);
    assert InProgress(ticks[1], "de") && TimedOut(ticks[1]);
    outcome, used := WhileModelTrainingIsInProgress(ticks, "de");
  }

  // ---------------------------------------------------------------------------
  // The ask-cli version gate in isAskInstalled

  const UnsupportedVersion: string := "Unsupported ask-cli version installed: Please install at leased version 1.6.2"

  predicate IsDigit(c: char)
  {
    '0' <= c <= '9'
  }

  function DigitValue(c: char): nat
    requires IsDigit(c)
  {
    (c as int) - ('0' as int)
  }

  predicate AllDigits(s: string)
  {
    forall i :: 0 <= i < |s| ==> IsDigit(s[i])
  }

  function Pow10(n: nat): (r: nat)
    ensures r >= 1
  {
    if n == 0 then 1 else 10 * Pow10(n - 1)
  }

  /** The decimal value of a digit string: below ten to the power of its
      length, as a number of that many digits is. */
  function DigitsValue(s: string): (r: nat)
    requires AllDigits(s)
    ensures r < Pow10(|s|)
  {
    if |s| == 0 then 0
    else
      var init := DigitsValue(s[..|s| - 1]);
      assert init + 1 <= Pow10(|s| - 1);
      assert init * 10 + 10 <= Pow10(|s| - 1) * 10;
      init * 10 + DigitValue(s[|s| - 1])
  }

  /** Appending a digit to both sides of a shifted sum. */
  lemma ShiftOneDigit(v: nat, p: nat, w: nat, d: nat)
    ensures (v * p + w) * 10 + d == v * (10 * p) + (w * 10 + d)
  {
    assert (v * p) * 10 == v * (10 * p);
  }

  /** Digit strings run together: the value of `x + y` is x's value shifted
      left by |y| decimal places plus y's value. */
  lemma {:induction false} DigitsValueAppend(x: string, y: string)
    requires AllDigits(x) && AllDigits(y)
    ensures AllDigits(x + y)
    ensures DigitsValue(x + y) == DigitsValue(x) * Pow10(|y|) + DigitsValue(y)
    decreases |y|
  {
    if |y| == 0 {
      assert x + y == x;
    } else {
      var init := y[..|y| - 1];
      var c := y[|y| - 1];
      assert AllDigits(init) && IsDigit(c);
      DigitsValueAppend(x, init);
      assert x + y == (x + init) + [c];
      DigitsValueSnoc(x + init, c);
      assert y == init + [c];
      DigitsValueSnoc(init, c);
      assert Pow10(|y|) == 10 * Pow10(|init|);
      ShiftOneDigit(DigitsValue(x), Pow10(|init|), DigitsValue(init), DigitValue(c));
    }
  }

  /** `split(".").join("")`: the string without its dots. */
  function StripDots(s: string): (r: string)
    ensures '.' !in r
    ensures forall c :: c != '.' ==> (c in r <==> c in s)
    ensures '.' !in s ==> r == s
  {
    if |s| == 0 then []
    else
      var init := StripDots(s[..|s| - 1]);
      var last := s[|s| - 1];
      assert forall c :: c in s <==> c in s[..|s| - 1] || c == last;
      if last == '.' then init else init + [last]
  }

  /** Everything before `i` and from `j` on is white space. */
  predicate SpaceOutside(s: string, i: nat, j: nat)
    requires i <= j <= |s|
  {
    && (forall k :: 0 <= k < i ==> IsJsSpace(s[k]))
    && (forall k :: j <= k < |s| ==> IsJsSpace(s[k]))
  }

  /** The string without leading and trailing white space, as `Number` reads it. */
  function Trim(s: string): (r: string)
    ensures |r| <= |s|
    ensures |r| > 0 ==> !IsJsSpace(r[0]) && !IsJsSpace(r[|r| - 1])
    ensures (|s| == 0 || (!IsJsSpace(s[0]) && !IsJsSpace(s[|s| - 1]))) ==> r == s
    decreases |s|
  {
    if |s| > 0 && IsJsSpace(s[0]) then Trim(s[1..])
    else if |s| > 0 && IsJsSpace(s[|s| - 1]) then Trim(s[..|s| - 1])
    else s
  }

  /** Trim removes white space at the two ends and nothing else: its result is
      a slice of the input with only white space outside it. */
  lemma {:induction false} TrimIsInfix(s: string)
    ensures exists i, j :: 0 <= i <= j <= |s| && Trim(s) == s[i..j] && SpaceOutside(s, i, j)
    decreases |s|
  {
    if |s| > 0 && IsJsSpace(s[0]) {
      var tail := s[1..];
      TrimIsInfix(tail);
      var i, j :| 0 <= i <= j <= |tail| && Trim(tail) == tail[i..j] && SpaceOutside(tail, i, j);
      SpaceOutsideCons(s, i, j);
    } else if |s| > 0 && IsJsSpace(s[|s| - 1]) {
      var init := s[..|s| - 1];
      TrimIsInfix(init);
      var i, j :| 0 <= i <= j <= |init| && Trim(init) == init[i..j] && SpaceOutside(init, i, j);
      SpaceOutsideSnoc(s, i, j);
    } else {
      assert s == s[0..|s|];
    }
  }

  /** A leading white-space character widens the outside by one on the left. */
  lemma SpaceOutsideCons(s: string, i: nat, j: nat)
    requires |s| > 0 && IsJsSpace(s[0]) && i <= j <= |s| - 1 && SpaceOutside(s[1..], i, j)
    ensures s[1..][i..j] == s[i + 1..j + 1] && SpaceOutside(s, i + 1, j + 1)
  {
    assert forall k :: 0 <= k < j - i ==> s[1..][i..j][k] == s[i + 1..j + 1][k];
    forall k | 0 <= k < i + 1 ensures IsJsSpace(s[k]) {
      if k > 0 { assert s[k] == s[1..][k - 1]; }
    }
    forall k | j + 1 <= k < |s| ensures IsJsSpace(s[k]) {
      assert s[k] == s[1..][k - 1];
    }
  }

  /** A trailing white-space character widens the outside by one on the right. */
  lemma SpaceOutsideSnoc(s: string, i: nat, j: nat)
    requires |s| > 0 && IsJsSpace(s[|s| - 1]) && i <= j <= |s| - 1 && SpaceOutside(s[..|s| - 1], i, j)
    ensures s[..|s| - 1][i..j] == s[i..j] && SpaceOutside(s, i, j)
  {
    forall k | 0 <= k < i ensures IsJsSpace(s[k]) {
      assert s[k] == s[..|s| - 1][k];
    }
    forall k | j <= k < |s| ensures IsJsSpace(s[k]) {
      if k < |s| - 1 { assert s[k] == s[..|s| - 1][k]; }
    }
  }

  /** `Number(s)` for the strings a version can turn into: surrounding white
      space is ignored, the empty string is 0, a decimal digit string is its
      value, and anything else is NaN (`None`). */
  function ParseNumber(s: string): (r: Option<nat>)
    ensures Trim(s) == [] ==> r == Some(0)
    ensures Trim(s) != [] && AllDigits(Trim(s)) ==> r == Some(DigitsValue(Trim(s)))
    ensures !AllDigits(Trim(s)) ==> r.None?
  {
    var t := Trim(s);
    if |t| == 0 then Some(0)
    else if AllDigits(t) then Some(DigitsValue(t))
    else None
  }

  /** isAskInstalled as written: `None` is the tool failing to run (false); a
      version whose digits, read as one number, reach 162 is accepted; any
      other version throws. */
  function IsAskInstalledAsWritten(askVersion: Option<string>): (r: Result<bool>)
    ensures askVersion.None? <==> r == Ok(false)
    ensures askVersion.Some? ==>
      (r == Ok(true) <==> ParseNumber(StripDots(askVersion.value)).Some? && ParseNumber(StripDots(askVersion.value)).value >= 162)
    ensures r.Err? ==> r.error == UnsupportedVersion
  {
    if askVersion.None? then Ok(false)
    else
      var n := ParseNumber(StripDots(askVersion.value));
      if n.Some? && n.value >= 162 then Ok(true) else Err(UnsupportedVersion)
  }

  /** `split(".")`: the pieces between dots; always at least one. */
  function SplitDots(s: string): (r: seq<string>)
    ensures |r| >= 1
    ensures forall i :: 0 <= i < |r| ==> '.' !in r[i]
  {
    if |s| == 0 then [[]]
    else
      var parts := SplitDots(s[..|s| - 1]);
      var last := s[|s| - 1];
      if last == '.' then parts + [[]]
      else parts[..|parts| - 1] + [parts[|parts| - 1] + [last]]
  }

  /** The numeric values of version components, when every component is a
      non-empty digit string. */
  function ParseParts(parts: seq<string>): (r: Option<seq<nat>>)
    ensures r.Some? <==> forall i :: 0 <= i < |parts| ==> |parts[i]| > 0 && AllDigits(parts[i])
    ensures r.Some? ==> |r.value| == |parts| && forall i :: 0 <= i < |parts| ==> r.value[i] == DigitsValue(parts[i])
  {
    if forall i :: 0 <= i < |parts| ==> |parts[i]| > 0 && AllDigits(parts[i]) then
      Some(seq(|parts|, i requires 0 <= i < |parts| && AllDigits(parts[i]) => DigitsValue(parts[i])))
    else None
  }

  /** The numeric components of a dotted version. */
  function ParseVersion(s: string): (r: Option<seq<nat>>)
  {
    ParseParts(SplitDots(Trim(s)))
  }

  /** Component-wise comparison of versions; a missing component counts as 0. */
  predicate AtLeast(v: seq<nat>, minimum: seq<nat>)
    decreases |minimum|
  {
    if |minimum| == 0 then true
    else
      var head := if |v| > 0 then v[0] else 0;
      var rest := if |v| > 0 then v[1..] else [];
      if head != minimum[0] then head > minimum[0] else AtLeast(rest, minimum[1..])
  }

  const MinimumVersion: seq<nat> := [1, 6, 2]

  /** isAskInstalled as intended: accept exactly the versions from 1.6.2 on,
      comparing major, minor and patch in turn. */
  function IsAskInstalled(askVersion: Option<string>): (r: Result<bool>)
    ensures askVersion.None? <==> r == Ok(false)
    ensures askVersion.Some? ==>
      (r == Ok(true) <==> ParseVersion(askVersion.value).Some? && AtLeast(ParseVersion(askVersion.value).value, MinimumVersion))
    ensures r.Err? ==> r.error == UnsupportedVersion
  {
    if askVersion.None? then Ok(false)
    else
      var v := ParseVersion(askVersion.value);
      if v.Some? && AtLeast(v.value, MinimumVersion) then Ok(true) else Err(UnsupportedVersion)
  }

  /** A three-component version reaches 1.6.2 in the intended order. */
  lemma AtLeastMinimum(a: nat, b: nat, c: nat)
    ensures AtLeast([a, b, c], MinimumVersion) <==> a > 1 || (a == 1 && (b > 6 || (b == 6 && c >= 2)))
  {
    assert [a, b, c][1..] == [b, c];
    assert [b, c][1..] == [c];
    assert [c][1..] == [];
    assert MinimumVersion[1..] == [6, 2];
    assert MinimumVersion[1..][1..] == [2];
  }

  function DigitChar(d: nat): char
    requires d < 10
  {
    ('0' as int + d) as char
  }

  /** Removing dots distributes over concatenation. */
  lemma {:induction false} StripDotsAppend(a: string, b: string)
    ensures StripDots(a + b) == StripDots(a) + StripDots(b)
    decreases |b|
  {
    if |b| == 0 {
      assert a + b == a;
    } else {
      var init := b[..|b| - 1];
      var last := b[|b| - 1];
      StripDotsAppend(a, init);
      assert (a + b)[..|a + b| - 1] == a + init;
      assert (a + b)[|a + b| - 1] == last;
      if last != '.' {
        assert StripDots(a) + StripDots(init) + [last] == StripDots(a) + (StripDots(init) + [last]);
      }
    }
  }

  /** A string without dots splits into itself. */
  lemma {:induction false} SplitDotsNoDot(s: string)
    requires '.' !in s
    ensures SplitDots(s) == [s]
    decreases |s|
  {
    if |s| > 0 {
      var init := s[..|s| - 1];
      assert forall k :: 0 <= k < |init| ==> init[k] == s[k];
      assert '.' !in init;
      SplitDotsNoDot(init);
      assert init + [s[|s| - 1]] == s;
    }
  }

  /** A dot followed by a dot-free piece adds that piece as the last part. */
  lemma {:induction false} SplitDotsAfterDot(a: string, b: string)
    requires '.' !in b
    ensures SplitDots(a + "." + b) == SplitDots(a) + [b]
    decreases |b|
  {
    var s := a + "." + b;
    if |b| == 0 {
      assert s == a + ".";
      assert s[..|s| - 1] == a;
    } else {
      var init := b[..|b| - 1];
      assert forall k :: 0 <= k < |init| ==> init[k] == b[k];
      assert '.' !in init;
      SplitDotsAfterDot(a, init);
      assert s[..|s| - 1] == a + "." + init;
      assert s[|s| - 1] == b[|b| - 1] != '.';
      var parts := SplitDots(a + "." + init);
      assert parts[..|parts| - 1] == SplitDots(a);
      assert init + [b[|b| - 1]] == b;
    }
  }

  /** The version text `x.y.z` of three dot-free components. */
  function Dotted(x: string, y: string, z: string): string
  {
    x + "." + y + "." + z
  }

  /** Both readings of `x.y.z`: the digits run together, and the three parts. */
  lemma DottedVersion(x: string, y: string, z: string)
    requires '.' !in x && '.' !in y && '.' !in z
    ensures StripDots(Dotted(x, y, z)) == x + y + z
    ensures SplitDots(Dotted(x, y, z)) == [x, y, z]
  {
    StripDotsAppend(x, ".");
    StripDotsAppend(x + ".", y);
    StripDotsAppend(x + "." + y, ".");
    StripDotsAppend(x + "." + y + ".", z);
    assert StripDots(".") == [] by { assert "."[..0] == []; }
    SplitDotsNoDot(x);
    SplitDotsAfterDot(x, y);
    SplitDotsAfterDot(x + "." + y, z);
  }

  /** One more digit multiplies the value by ten and adds the digit. */
  lemma DigitsValueSnoc(s: string, c: char)
    requires AllDigits(s) && IsDigit(c)
    ensures AllDigits(s + [c])
    ensures DigitsValue(s + [c]) == DigitsValue(s) * 10 + DigitValue(c)
  {
    assert (s + [c])[..|s|] == s;
  }

  /** A digit is neither white space nor a dot. */
  lemma DigitIsPlain(c: char)
    requires IsDigit(c)
    ensures !IsJsSpace(c) && c != '.'
  {
  }

  /** A digit string holds no dot. */
  lemma DigitsHaveNoDot(s: string)
    requires AllDigits(s)
    ensures '.' !in s
  {
  }

  /** `x.y.z` with non-empty digit components, unpadded by white space, parses
      to the three values. */
  lemma ParseDotted(x: string, y: string, z: string)
    requires |x| > 0 && |y| > 0 && |z| > 0 && AllDigits(x) && AllDigits(y) && AllDigits(z)
    ensures ParseVersion(Dotted(x, y, z)) == Some([DigitsValue(x), DigitsValue(y), DigitsValue(z)])
  {
    var v := Dotted(x, y, z);
    DigitsHaveNoDot(x);
    DigitsHaveNoDot(y);
    DigitsHaveNoDot(z);
    DottedVersion(x, y, z);
    DigitIsPlain(x[0]);
    DigitIsPlain(z[|z| - 1]);
    assert v[0] == x[0] && v[|v| - 1] == z[|z| - 1];
    assert Trim(v) == v;
    var parts := SplitDots(Trim(v));
    assert parts == [x, y, z];
    var r := ParseParts(parts);
    assert r.Some?;
    assert r.value == [DigitsValue(x), DigitsValue(y), DigitsValue(z)];
  }

  /** The value of a one-digit string. */
  lemma DigitsValueOne(c: char)
    requires IsDigit(c)
    ensures DigitsValue([c]) == DigitValue(c)
  {
    DigitsValueSnoc([], c);
    assert [] + [c] == [c];
  }

  /** Digit strings stay digit strings when joined. */
  lemma AllDigitsAppend(a: string, b: string)
    requires AllDigits(a) && AllDigits(b)
    ensures AllDigits(a + b)
  {
    forall i | 0 <= i < |a + b| ensures IsDigit((a + b)[i]) {
      if i < |a| { assert (a + b)[i] == a[i]; } else { assert (a + b)[i] == b[i - |a|]; }
    }
  }

  /** `Number` reads a non-empty digit string as its decimal value. */
  lemma ParseDigits(s: string)
    requires |s| > 0 && AllDigits(s)
    ensures ParseNumber(s) == Some(DigitsValue(s))
  {
    DigitIsPlain(s[0]);
    DigitIsPlain(s[|s| - 1]);
    assert Trim(s) == s;
  }

  /** The gate as written on `x.y.z`: the three digit strings run together,
      read as one number. */
  lemma AsWrittenReading(x: string, y: string, z: string)
    requires |x| > 0 && |y| > 0 && |z| > 0 && AllDigits(x) && AllDigits(y) && AllDigits(z)
    ensures AllDigits(x + y + z)
    ensures IsAskInstalledAsWritten(Some(Dotted(x, y, z)))
         == if DigitsValue(x + y + z) >= 162 then Ok(true) else Err(UnsupportedVersion)
  {
    DigitsHaveNoDot(x);
    DigitsHaveNoDot(y);
    DigitsHaveNoDot(z);
    DottedVersion(x, y, z);
    AllDigitsAppend(x, y);
    AllDigitsAppend(x + y, z);
    ParseDigits(x + y + z);
  }

  /** The intended gate on `x.y.z`: the three values compared with 1.6.2. */
  lemma IntendedReading(x: string, y: string, z: string)
    requires |x| > 0 && |y| > 0 && |z| > 0 && AllDigits(x) && AllDigits(y) && AllDigits(z)
    ensures IsAskInstalled(Some(Dotted(x, y, z)))
         == if AtLeast([DigitsValue(x), DigitsValue(y), DigitsValue(z)], MinimumVersion) then Ok(true) else Err(UnsupportedVersion)
  {
    ParseDotted(x, y, z);
  }

  /** With single-digit components, reading the digits as one number orders
      versions correctly: the gate as written and as intended agree. */
  lemma GatesAgreeOnSingleDigits(a: nat, b: nat, c: nat)
    requires a < 10 && b < 10 && c < 10
    ensures IsAskInstalledAsWritten(Some(Dotted([DigitChar(a)], [DigitChar(b)], [DigitChar(c)])))
         == IsAskInstalled(Some(Dotted([DigitChar(a)], [DigitChar(b)], [DigitChar(c)])))
  {
    var x, y, z := [DigitChar(a)], [DigitChar(b)], [DigitChar(c)];
    DigitsValueOne(DigitChar(a));
    DigitsValueOne(DigitChar(b));
    DigitsValueOne(DigitChar(c));
    DigitsValueSnoc(x, DigitChar(b));
    DigitsValueSnoc(x + y, DigitChar(c));
    assert DigitsValue(x + y + z) == 100 * a + 10 * b + c;
    AsWrittenReading(x, y, z);
    IntendedReading(x, y, z);
    AtLeastMinimum(a, b, c);
  }

  /** The version gate as written accepts 1.5.10, an older release than 1.6.2:
      "1510" read as a number is above 162. */
  lemma AsWrittenAcceptsOlderVersion()
    ensures IsAskInstalledAsWritten(Some(Dotted([DigitChar(1)], [DigitChar(5)], [DigitChar(1), DigitChar(0)]))) == Ok(true)
    ensures IsAskInstalled(Some(Dotted([DigitChar(1)], [DigitChar(5)], [DigitChar(1), DigitChar(0)]))) == Err(UnsupportedVersion)
  {
    var x, y, z := [DigitChar(1)], [DigitChar(5)], [DigitChar(1), DigitChar(0)];
    DigitsValueOne(DigitChar(1));
    DigitsValueOne(DigitChar(5));
    DigitsValueSnoc(x, DigitChar(5));
    DigitsValueSnoc(x + y, DigitChar(1));
    DigitsValueSnoc(x + y + x, DigitChar(0));
    assert x + y + z == x + y + x + [DigitChar(0)];
    DigitsValueSnoc(x, DigitChar(0));
    assert x + [DigitChar(0)] == z;
    assert DigitsValue(x + y + z) == 1510;
    AsWrittenReading(x, y, z);
    IntendedReading(x, y, z);
    AtLeastMinimum(1, 5, 10);
  }

  /** The intended gate on the versions the deployment tests and the error
      message name: 1.6.0 is refused, 1.6.2 and the later 1.10.0 are accepted. */
  lemma GateVersionCases()
    ensures IsAskInstalled(Some(Dotted([DigitChar(1)], [DigitChar(6)], [DigitChar(0)]))) == Err(UnsupportedVersion)
    ensures IsAskInstalled(Some(Dotted([DigitChar(1)], [DigitChar(6)], [DigitChar(2)]))) == Ok(true)
    ensures IsAskInstalled(Some(Dotted([DigitChar(1)], [DigitChar(1), DigitChar(0)], [DigitChar(0)]))) == Ok(true)
  {
    var one, six, zero, two := [DigitChar(1)], [DigitChar(6)], [DigitChar(0)], [DigitChar(2)];
    DigitsValueOne(DigitChar(1));
    DigitsValueOne(DigitChar(6));
    DigitsValueOne(DigitChar(0));
    DigitsValueOne(DigitChar(2));
    DigitsValueSnoc(one, DigitChar(0));
    assert one + [DigitChar(0)] == [DigitChar(1), DigitChar(0)];
    IntendedReading(one, six, zero);
    IntendedReading(one, six, two);
    IntendedReading(one, [DigitChar(1), DigitChar(0)], zero);
    AtLeastMinimum(1, 6, 0);
    AtLeastMinimum(1, 6, 2);
    AtLeastMinimum(1, 10, 0);
  }

  // ---------------------------------------------------------------------------
  // execute, up to the uploads

  const NoConfiguration: string :=
    "There is no configuration given: Please execute the 'assistant generator' before uploading the current configuration."

  /** What execute goes on to do: nothing when the tool is missing, otherwise
      upload the schema of each country code under its locale. */
  datatype DeploymentPlan = ToolMissing | Upload(countryCodes: seq<string>, locales: seq<string>)

  /** execute before its uploads, given the answer of a version gate: no
      country code throws, whatever the tool; otherwise the gate decides. */
  function PlanWithGate(schemaFiles: seq<string>, installed: Result<bool>): (r: Result<DeploymentPlan>)
    ensures GetCountryCodes(schemaFiles) == [] ==> r == Err(NoConfiguration)
    ensures GetCountryCodes(schemaFiles) != [] ==>
      && (installed.Err? ==> r == Err(installed.error))
      && (installed == Ok(false) ==> r == Ok(ToolMissing))
      && (installed == Ok(true) ==> r == Ok(Upload(GetCountryCodes(schemaFiles), MappedLocales(GetCountryCodes(schemaFiles)))))
  {
    var countryCodes := GetCountryCodes(schemaFiles);
    if |countryCodes| == 0 then Err(NoConfiguration)
    else if installed.Err? then Err(installed.error)
    else if !installed.value then Ok(ToolMissing)
    else Ok(Upload(countryCodes, MappedLocales(countryCodes)))
  }

  /** execute as written: the digit-concatenating gate decides. */
  function PlanDeployment(schemaFiles: seq<string>, askVersion: Option<string>): (r: Result<DeploymentPlan>)
    ensures GetCountryCodes(schemaFiles) == [] <==> r == Err(NoConfiguration)
    ensures GetCountryCodes(schemaFiles) != [] && IsAskInstalledAsWritten(askVersion).Err? ==> r == Err(UnsupportedVersion)
    ensures r == Ok(ToolMissing) <==> GetCountryCodes(schemaFiles) != [] && askVersion.None?
    ensures r.Ok? && r.value.Upload? <==>
      && GetCountryCodes(schemaFiles) != [] && askVersion.Some?
      && ParseNumber(StripDots(askVersion.value)).Some? && ParseNumber(StripDots(askVersion.value)).value >= 162
    ensures r.Ok? && r.value.Upload? ==>
      && r.value.countryCodes == GetCountryCodes(schemaFiles)
      && r.value.locales == MappedLocales(GetCountryCodes(schemaFiles))
  {
    PlanWithGate(schemaFiles, IsAskInstalledAsWritten(askVersion))
  }

  /** execute with the intended gate: uploads only from ask-cli 1.6.2 on. */
  function PlanDeploymentCorrected(schemaFiles: seq<string>, askVersion: Option<string>): (r: Result<DeploymentPlan>)
    ensures GetCountryCodes(schemaFiles) == [] <==> r == Err(NoConfiguration)
    ensures GetCountryCodes(schemaFiles) != [] && IsAskInstalled(askVersion).Err? ==> r == Err(UnsupportedVersion)
    ensures r == Ok(ToolMissing) <==> GetCountryCodes(schemaFiles) != [] && askVersion.None?
    ensures r.Ok? && r.value.Upload? <==>
      && GetCountryCodes(schemaFiles) != [] && askVersion.Some?
      && ParseVersion(askVersion.value).Some? && AtLeast(ParseVersion(askVersion.value).value, MinimumVersion)
    ensures r.Ok? && r.value.Upload? ==>
      && r.value.countryCodes == GetCountryCodes(schemaFiles)
      && r.value.locales == MappedLocales(GetCountryCodes(schemaFiles))
  {
    PlanWithGate(schemaFiles, IsAskInstalled(askVersion))
  }

  /** With ask-cli 1.5.10 installed and some schema to deploy, execute as
      written uploads every schema; the intended gate refuses the tool. */
  lemma PlansDisagreeOnOlderVersion(schemaFiles: seq<string>)
    requires GetCountryCodes(schemaFiles) != []
    ensures var older := Some(Dotted([DigitChar(1)], [DigitChar(5)], [DigitChar(1), DigitChar(0)]));
            && PlanDeployment(schemaFiles, older)
               == Ok(Upload(GetCountryCodes(schemaFiles), MappedLocales(GetCountryCodes(schemaFiles))))
            && PlanDeploymentCorrected(schemaFiles, older) == Err(UnsupportedVersion)
  {
    AsWrittenAcceptsOlderVersion();
  }
}
