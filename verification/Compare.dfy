/** String collections (pkg/compare/slices.go, isSubSet in pkg/validator/validators/validators.go). */
module Compare {
  /** The required strings that are not among the actual ones, each once, in the
      order of their first appearance. */
  function Missing(actual: seq<string>, required: seq<string>): seq<string> {
    if required == [] then []
    else
      var rest, s := Missing(actual, required[..|required| - 1]), required[|required| - 1];
      if s in actual || s in rest then rest else rest + [s]
  }

  method Complement(actual: seq<string>, required: seq<string>) returns (result: seq<string>)
    ensures result == Missing(actual, required)
  {
    var actualSet: set<string> := {};
    for i := 0 to |actual|
      invariant forall s :: s in actualSet <==> s in actual[..i]
    {
      actualSet := actualSet + {actual[i]};
    }
    assert actual[..|actual|] == actual;
    var seen: set<string> := {};
    result := [];
    for i := 0 to |required|
      invariant result == Missing(actual, required[..i])
      invariant forall s :: s in seen <==> s in result
    {
      assert required[..i + 1][..i] == required[..i];
      if required[i] !in actualSet {
        if required[i] !in seen {
          result := result + [required[i]];
          seen := seen + {required[i]};
        }
      }
    }
    assert required[..|required|] == required;
  }

  /** Exactly the required strings that are not actual, without repetition. */
  lemma {:induction false} MissingMeans(actual: seq<string>, required: seq<string>)
    ensures forall s :: s in Missing(actual, required) <==> s in required && s !in actual
    ensures forall i, j | 0 <= i < j < |Missing(actual, required)| ::
              Missing(actual, required)[i] != Missing(actual, required)[j]
    ensures Missing(actual, required) == [] <==> forall s | s in required :: s in actual
  {
    if required != [] {
      MissingMeans(actual, required[..|required| - 1]);
      assert forall s :: s in required <==> s in required[..|required| - 1] || s == required[|required| - 1];
      var m := Missing(actual, required);
      assert m == [] ==> forall s | s in required :: s in actual;
      if m != [] {
        assert m[0] in m;
      }
    }
  }

  /** Some `a` comes before every `b`. */
  ghost predicate ComesFirst(names: seq<string>, a: string, b: string) {
    exists p | 0 <= p < |names| :: names[p] == a && b !in names[..p]
  }

  /** They come in the order of their first appearance. */
  lemma {:induction false} MissingInOrder(actual: seq<string>, required: seq<string>, i: nat, j: nat)
    requires i < j < |Missing(actual, required)|
    ensures ComesFirst(required, Missing(actual, required)[i], Missing(actual, required)[j])
  {
    var before := required[..|required| - 1];
    var rest, a, b := Missing(actual, before), Missing(actual, required)[i], Missing(actual, required)[j];
    if j < |rest| {
      MissingInOrder(actual, before, i, j);
      var p :| 0 <= p < |before| && before[p] == a && b !in before[..p];
      assert required[p] == a && required[..p] == before[..p];
    } else {
      MissingMeans(actual, before);
      assert a in rest && b !in rest && b !in actual;
      var p :| 0 <= p < |before| && before[p] == a;
      assert b !in before;
      assert forall x | x in required[..p] :: x in before;
      assert required[p] == a;
    }
  }

  method IsSubSet(subset: seq<string>, superset: seq<string>) returns (ok: bool)
    ensures ok <==> forall s | s in subset :: s in superset
  {
    var checkset: set<string> := {};
    for i := 0 to |superset|
      invariant forall s :: s in checkset <==> s in superset[..i]
    {
      checkset := checkset + {superset[i]};
    }
    assert superset[..|superset|] == superset;
    for i := 0 to |subset|
      invariant forall s | s in subset[..i] :: s in superset
    {
      if subset[i] !in checkset {
        return false;
      }
    }
    assert subset[..|subset|] == subset;
    return true;
  }
}
