/** The intent vocabulary shared by the request extractor and the schema
    generator: Amazon's built-in intent names and the framework's generic intents. */
module IntentDict {

  /** The framework's generic intents this adapter names. Every other member of
      the framework's numeric enum (for instance one it calls unspeakable) is
      `OtherGeneric(code)`. */
  datatype GenericIntent =
    | Invoke
    | Unanswered
    | Selected
    | Yes
    | No
    | Help
    | Cancel
    | Stop
    | OtherGeneric(code: nat)

  /** An intent as the framework routes it: generic, or a platform intent name. */
  datatype Intent = Generic(generic: GenericIntent) | Named(name: string)

  /** The entries of the Amazon-to-generic table, in the order its object
      literal lists them (the order in which `for ... in` visits them). */
  const AmazonEntries: seq<(string, GenericIntent)> := [
    ("AMAZON.YesIntent", Yes),
    ("AMAZON.NoIntent", No),
    ("AMAZON.HelpIntent", Help),
    ("AMAZON.CancelIntent", Cancel),
    ("AMAZON.StopIntent", Stop)
  ]

  /** amazonToGenericIntent: the same object literal read as a dictionary. */
  const AmazonToGeneric: map<string, GenericIntent> := map[
    "AMAZON.YesIntent" := Yes,
    "AMAZON.NoIntent" := No,
    "AMAZON.HelpIntent" := Help,
    "AMAZON.CancelIntent" := Cancel,
    "AMAZON.StopIntent" := Stop
  ]

  /** genericIntentToAmazon: the table built by swapping keys and values. */
  const GenericToAmazon: map<GenericIntent, string> := SwapOf(AmazonEntries)

  /** What `swap` returns for an object whose keys it visits in the order of
      `entries`: each visit assigns `ret[value] := key`, so a later key
      overwrites an earlier key with the same value. */
  function SwapOf<K, V>(entries: seq<(K, V)>): map<V, K>
  {
    if |entries| == 0 then map[]
    else
      var last := entries[|entries| - 1];
      SwapOf(entries[..|entries| - 1])[last.1 := last.0]
  }

  /** The values of an entry list. */
  ghost function ValuesOf<K, V>(entries: seq<(K, V)>): set<V>
  {
    set i | 0 <= i < |entries| :: entries[i].1
  }

  /** `swap`: one assignment per visited key. */
  method Swap<K, V>(entries: seq<(K, V)>) returns (ret: map<V, K>)
    ensures ret == SwapOf(entries)
  {
    ret := map[];
    for i := 0 to |entries|
      invariant ret == SwapOf(entries[..i])
    {
      assert entries[..i + 1][..i] == entries[..i];
      ret := ret[entries[i].1 := entries[i].0];
    }
    assert entries[..|entries|] == entries;
  }

  /** The keys of the swapped table are exactly the values of the input: swap
      adds no other key. */
  lemma {:induction false} SwapOfKeys<K, V>(entries: seq<(K, V)>)
    ensures SwapOf(entries).Keys == ValuesOf(entries)
  {
    if |entries| > 0 {
      var init := entries[..|entries| - 1];
      SwapOfKeys(init);
      assert ValuesOf(entries) == ValuesOf(init) + {entries[|entries| - 1].1} by {
        forall v | v in ValuesOf(entries) ensures v in ValuesOf(init) + {entries[|entries| - 1].1} {
          var i :| 0 <= i < |entries| && entries[i].1 == v;
          if i < |entries| - 1 {
            assert init[i].1 == v;
          }
        }
        forall v | v in ValuesOf(init) ensures v in ValuesOf(entries) {
          var i :| 0 <= i < |init| && init[i].1 == v;
          assert entries[i].1 == v;
        }
      }
    }
  }

  /** Last writer wins: the key visited last among those sharing a value is the
      one the swapped table maps that value to. */
  lemma {:induction false} SwapOfLastWriterWins<K, V>(entries: seq<(K, V)>, i: nat)
    requires i < |entries|
    requires forall j :: i < j < |entries| ==> entries[j].1 != entries[i].1
    ensures entries[i].1 in SwapOf(entries) && SwapOf(entries)[entries[i].1] == entries[i].0
  {
    if i < |entries| - 1 {
      var init := entries[..|entries| - 1];
      assert init[i] == entries[i];
      SwapOfLastWriterWins(init, i);
    }
  }

  /** Every entry of the swapped table comes from an input pair read backwards. */
  lemma {:induction false} SwapOfFromInput<K, V>(entries: seq<(K, V)>, v: V)
    requires v in SwapOf(entries)
    ensures exists i :: 0 <= i < |entries| && entries[i] == (SwapOf(entries)[v], v)
  {
    var init := entries[..|entries| - 1];
    var last := entries[|entries| - 1];
    if last.1 != v {
      SwapOfFromInput(init, v);
      var i :| 0 <= i < |init| && init[i] == (SwapOf(init)[v], v);
      assert entries[i] == init[i];
    } else {
      assert entries[|entries| - 1] == (SwapOf(entries)[v], v);
    }
  }

  /** The generic side of the table: exactly the five intents Amazon has names for. */
  lemma {:induction false} GenericToAmazonKeys()
    ensures GenericToAmazon.Keys == {Yes, No, Help, Cancel, Stop}
  {
    SwapOfKeys(AmazonEntries);
    assert ValuesOf(AmazonEntries) == {Yes, No, Help, Cancel, Stop} by {
      assert AmazonEntries[0].1 == Yes && AmazonEntries[1].1 == No && AmazonEntries[2].1 == Help;
      assert AmazonEntries[3].1 == Cancel && AmazonEntries[4].1 == Stop;
    }
  }

  /** Looking up the generic intent of an Amazon name in the inverse table gives
      the name back. */
  lemma AmazonRoundTrip(a: string)
    requires a in AmazonToGeneric
    ensures AmazonToGeneric[a] in GenericToAmazon && GenericToAmazon[AmazonToGeneric[a]] == a
  {
    var i := if a == "AMAZON.YesIntent" then 0
      else if a == "AMAZON.NoIntent" then 1
      else if a == "AMAZON.HelpIntent" then 2
      else if a == "AMAZON.CancelIntent" then 3
      else 4;
    assert AmazonEntries[i] == (a, AmazonToGeneric[a]);
    SwapOfLastWriterWins(AmazonEntries, i);
  }

  /** Looking up the Amazon name of a generic intent in the forward table gives
      the generic intent back. */
  lemma GenericRoundTrip(g: GenericIntent)
    requires g in GenericToAmazon
    ensures GenericToAmazon[g] in AmazonToGeneric && AmazonToGeneric[GenericToAmazon[g]] == g
  {
    SwapOfFromInput(AmazonEntries, g);
    var i :| 0 <= i < |AmazonEntries| && AmazonEntries[i] == (GenericToAmazon[g], g);
    assert AmazonEntries[i].0 in AmazonToGeneric && AmazonToGeneric[AmazonEntries[i].0] == AmazonEntries[i].1;
  }

  /** The entry list and the dictionary are the same object literal: every
      listed pair is in the dictionary, and every dictionary key is listed. */
  lemma AmazonTablesAgree()
    ensures forall i :: 0 <= i < |AmazonEntries| ==>
              AmazonEntries[i].0 in AmazonToGeneric && AmazonToGeneric[AmazonEntries[i].0] == AmazonEntries[i].1
    ensures forall a :: a in AmazonToGeneric ==> exists i :: 0 <= i < |AmazonEntries| && AmazonEntries[i].0 == a
  {
    forall a | a in AmazonToGeneric ensures exists i :: 0 <= i < |AmazonEntries| && AmazonEntries[i].0 == a {
      var i := if a == "AMAZON.YesIntent" then 0
        else if a == "AMAZON.NoIntent" then 1
        else if a == "AMAZON.HelpIntent" then 2
        else if a == "AMAZON.CancelIntent" then 3
        else 4;
      assert AmazonEntries[i].0 == a;
    }
  }

  /** Both tables have five entries. */
  lemma TableSizes()
    ensures |AmazonToGeneric| == 5 && |GenericToAmazon| == 5
  {
    GenericToAmazonKeys();
  }
}
