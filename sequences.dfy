/** The JavaScript Array shapes the adapter is built from: map-then-filter,
    a map that throws, and de-duplication through a Set. */
module Sequences {
  import opened Common

  function OptionToSeq<T>(o: Option<T>): seq<T>
  {
    if o.Some? then [o.value] else []
  }

  /** `map` followed by a filter on the mapped value, element by element. */
  function FilterMap<A, B>(s: seq<A>, f: A -> Option<B>): (r: seq<B>)
    ensures |r| <= |s|
  {
    if |s| == 0 then []
    else FilterMap(s[..|s| - 1], f) + OptionToSeq(f(s[|s| - 1]))
  }

  lemma {:induction false} FilterMapAppend<A, B>(a: seq<A>, b: seq<A>, f: A -> Option<B>)
    ensures FilterMap(a + b, f) == FilterMap(a, f) + FilterMap(b, f)
    decreases |b|
  {
    if |b| == 0 {
      assert a + b == a;
    } else {
      var init := b[..|b| - 1];
      assert (a + b)[..|a + b| - 1] == a + init;
      FilterMapAppend(a, init, f);
    }
  }

  /** An element is in the result exactly when some input element maps to it:
      nothing is invented and nothing that maps to a value is lost. */
  lemma {:induction false} FilterMapMembers<A, B>(s: seq<A>, f: A -> Option<B>, y: B)
    ensures y in FilterMap(s, f) <==> exists i :: 0 <= i < |s| && f(s[i]) == Some(y)
  {
    if |s| > 0 {
      var init := s[..|s| - 1];
      FilterMapMembers(init, f, y);
      if exists i :: 0 <= i < |init| && f(init[i]) == Some(y) {
        var i :| 0 <= i < |init| && f(init[i]) == Some(y);
        assert s[i] == init[i];
      }
      if exists i :: 0 <= i < |s| && f(s[i]) == Some(y) {
        var i :| 0 <= i < |s| && f(s[i]) == Some(y);
        if i < |s| - 1 {
          assert init[i] == s[i];
        }
      }
    }
  }

  /** Two filter-maps in a row are one filter-map with the composed step. */
  lemma {:induction false} FilterMapCompose<A, B, C>(s: seq<A>, f: A -> Option<B>, g: B -> Option<C>, h: A -> Option<C>)
    requires forall x :: h(x) == (if f(x).Some? then g(f(x).value) else None)
    ensures FilterMap(FilterMap(s, f), g) == FilterMap(s, h)
  {
    if |s| > 0 {
      var init := s[..|s| - 1];
      var last := s[|s| - 1];
      FilterMapCompose(init, f, g, h);
      FilterMapAppend(FilterMap(init, f), OptionToSeq(f(last)), g);
      if f(last).Some? {
        assert [f(last).value][..0] == [];
      }
    }
  }

  /** `map` that throws on the first element whose step throws. */
  function MapResult<A, B>(s: seq<A>, f: A -> Result<B>): (r: Result<seq<B>>)
    ensures r.Ok? <==> forall i :: 0 <= i < |s| ==> f(s[i]).Ok?
    ensures r.Ok? ==> |r.value| == |s| && forall i :: 0 <= i < |s| ==> r.value[i] == f(s[i]).value
    ensures r.Err? ==> exists i :: 0 <= i < |s| && f(s[i]).Err? && r.error == f(s[i]).error
                                   && forall j :: 0 <= j < i ==> f(s[j]).Ok?
  {
    if |s| == 0 then Ok([])
    else
      match f(s[0])
      case Err(e) => Err(e)
      case Ok(b) =>
        var rest := MapResult(s[1..], f);
        assert forall i :: 1 <= i < |s| ==> s[1..][i - 1] == s[i];
        if rest.Err? then
          var k :| 0 <= k < |s[1..]| && f(s[1..][k]).Err? && rest.error == f(s[1..][k]).error
                   && forall j :: 0 <= j < k ==> f(s[1..][j]).Ok?;
          assert forall j :: 0 <= j < k + 1 ==> f(s[j]).Ok? by {
            forall j | 0 <= j < k + 1 ensures f(s[j]).Ok? {
              if j > 0 { assert s[j] == s[1..][j - 1]; }
            }
          }
          assert f(s[k + 1]).Err?;
          Err(rest.error)
        else
          Ok([b] + rest.value)
  }

  /** `[...new Set(s)]`: each distinct element once, where it first occurs. */
  function Dedup(s: seq<string>): (r: seq<string>)
    ensures forall x :: x in r <==> x in s
    ensures forall i, j :: 0 <= i < j < |r| ==> r[i] != r[j]
  {
    if |s| == 0 then []
    else
      var d := Dedup(s[..|s| - 1]);
      var last := s[|s| - 1];
      assert forall x :: x in s <==> x in s[..|s| - 1] || x == last;
      if last in d then d else d + [last]
  }

  /** The position of the first occurrence of `x` in `s`. */
  function FirstIndex<T(==)>(s: seq<T>, x: T): (r: nat)
    requires x in s
    ensures r < |s| && s[r] == x && x !in s[..r]
  {
    var init := s[..|s| - 1];
    if x in init then
      var k := FirstIndex(init, x);
      assert s[..k] == init[..k];
      k
    else |s| - 1
  }

  /** The de-duplicated sequence lists elements in the order of their first
      occurrence. */
  lemma {:induction false} DedupFirstOccurrenceOrder(s: seq<string>)
    ensures forall i, j :: 0 <= i < j < |Dedup(s)| ==> FirstIndex(s, Dedup(s)[i]) < FirstIndex(s, Dedup(s)[j])
  {
    if |s| > 0 {
      var init := s[..|s| - 1];
      var last := s[|s| - 1];
      var d := Dedup(init);
      DedupFirstOccurrenceOrder(init);
      forall x | x in init ensures FirstIndex(s, x) == FirstIndex(init, x) {
        var k := FirstIndex(init, x);
        assert s[..k] == init[..k];
        assert s[k] == x;
        FirstIndexUnique(s, x, k);
      }
      assert s == init + [last];
      if last !in d {
        forall i | 0 <= i < |d| ensures FirstIndex(s, d[i]) < FirstIndex(s, last) {
          assert d[i] in init;
          assert FirstIndex(s, last) == |s| - 1;
        }
      }
    }
  }

  lemma FirstIndexUnique<T>(s: seq<T>, x: T, k: nat)
    requires k < |s| && s[k] == x && x !in s[..k]
    ensures FirstIndex(s, x) == k
  {
  }
}
