/** The key of one LCD screen: a data type, a direction and whether the screen shows the
    measured load or its prediction; and the order in which the screens are browsed. */
module DisplayTemplates {
  import Strings

  /** `direction` is 0 for RX and 1 for TX. */
  datatype DisplayTemplate = DisplayTemplate(dataTypeId: nat, dataTypeName: string, direction: nat, prediction: bool)

  /** The comparator handed to sort.Sort: by name, then by direction, and for equal name and
      direction the left template comes first exactly when it is a prediction screen. */
  predicate Less(a: DisplayTemplate, b: DisplayTemplate) {
    var namesComparison := Strings.Compare(a.dataTypeName, b.dataTypeName);
    if namesComparison == -1 then true
    else if namesComparison == 1 then false
    else if a.direction < b.direction then true
    else if a.direction > b.direction then false
    else a.prediction
  }

  /** Exchanges two elements of the slice being sorted and nothing else. */
  method Swap(s: array<DisplayTemplate>, i: nat, j: nat)
    requires i < s.Length && j < s.Length
    modifies s
    ensures s[..] == old(s[..])[i := old(s[j])][j := old(s[i])]
  {
    s[i], s[j] := s[j], s[i];
  }

  /** The part of a template the comparator looks at. */
  predicate SameKey(a: DisplayTemplate, b: DisplayTemplate) {
    a.dataTypeName == b.dataTypeName && a.direction == b.direction && a.prediction == b.prediction
  }

  /** Different names: the lexicographic order of the names decides. */
  lemma LessByName(a: DisplayTemplate, b: DisplayTemplate)
    requires a.dataTypeName != b.dataTypeName
    ensures Less(a, b) <==> Strings.Less(a.dataTypeName, b.dataTypeName)
  {
    Strings.CompareZeroIffEqual(a.dataTypeName, b.dataTypeName);
  }

  /** Same name, different directions: the smaller direction comes first. */
  lemma LessByDirection(a: DisplayTemplate, b: DisplayTemplate)
    requires a.dataTypeName == b.dataTypeName && a.direction != b.direction
    ensures Less(a, b) <==> a.direction < b.direction
  {
    Strings.CompareZeroIffEqual(a.dataTypeName, b.dataTypeName);
  }

  /** Same name and direction: the prediction flag of the left template decides, so the
      comparator is not irreflexive on prediction templates. */
  lemma LessByPrediction(a: DisplayTemplate, b: DisplayTemplate)
    requires a.dataTypeName == b.dataTypeName && a.direction == b.direction
    ensures Less(a, b) == a.prediction
    ensures Less(a, a) == a.prediction
  {
    Strings.CompareZeroIffEqual(a.dataTypeName, b.dataTypeName);
  }

  /** For templates that differ in name, direction or prediction flag, exactly one of the two
      comparisons holds. */
  lemma LessExactlyOne(a: DisplayTemplate, b: DisplayTemplate)
    requires !SameKey(a, b)
    ensures Less(a, b) != Less(b, a)
  {
    Strings.CompareZeroIffEqual(a.dataTypeName, b.dataTypeName);
    Strings.CompareAntisymmetric(a.dataTypeName, b.dataTypeName);
  }

  lemma LessTransitive(a: DisplayTemplate, b: DisplayTemplate, c: DisplayTemplate)
    requires Less(a, b) && Less(b, c)
    ensures Less(a, c)
  {
    var (x, y, z) := (a.dataTypeName, b.dataTypeName, c.dataTypeName);
    Strings.CompareZeroIffEqual(x, y);
    Strings.CompareZeroIffEqual(y, z);
    Strings.CompareZeroIffEqual(x, z);
    Strings.CompareAntisymmetric(x, y);
    Strings.CompareAntisymmetric(y, z);
    Strings.CompareAntisymmetric(x, z);
    if Strings.Less(x, y) && Strings.Less(y, z) {
      Strings.LessTransitive(x, y, z);
    }
  }

  /** A total order on templates that refines the comparator: by name, by direction,
      prediction screens first, and by data type id among templates the comparator ties. */
  predicate Before(a: DisplayTemplate, b: DisplayTemplate) {
    || Strings.Less(a.dataTypeName, b.dataTypeName)
    || (a.dataTypeName == b.dataTypeName &&
        (|| a.direction < b.direction
         || (a.direction == b.direction &&
             (|| (a.prediction && !b.prediction)
              || (a.prediction == b.prediction && a.dataTypeId < b.dataTypeId)))))
  }

  lemma BeforeIrreflexive(a: DisplayTemplate)
    ensures !Before(a, a)
  {
    Strings.LessTotal(a.dataTypeName, a.dataTypeName);
  }

  lemma BeforeTotal(a: DisplayTemplate, b: DisplayTemplate)
    ensures a == b || Before(a, b) || Before(b, a)
    ensures !(Before(a, b) && Before(b, a))
  {
    Strings.LessTotal(a.dataTypeName, b.dataTypeName);
  }

  lemma BeforeTransitive(a: DisplayTemplate, b: DisplayTemplate, c: DisplayTemplate)
    requires Before(a, b) && Before(b, c)
    ensures Before(a, c)
  {
    var (x, y, z) := (a.dataTypeName, b.dataTypeName, c.dataTypeName);
    Strings.LessTotal(x, y);
    Strings.LessTotal(y, z);
    Strings.LessTotal(x, z);
    if Strings.Less(x, y) && Strings.Less(y, z) {
      Strings.LessTransitive(x, y, z);
    }
  }

  /** Where the comparator orders two templates, the total order agrees with it. */
  lemma BeforeAgreesWithLess(a: DisplayTemplate, b: DisplayTemplate)
    requires !SameKey(a, b)
    ensures Before(a, b) <==> Less(a, b)
  {
    Strings.LessTotal(a.dataTypeName, b.dataTypeName);
    Strings.CompareZeroIffEqual(a.dataTypeName, b.dataTypeName);
    Strings.CompareAntisymmetric(a.dataTypeName, b.dataTypeName);
  }

  /** Strictly increasing in the total order (and so without repetitions). */
  predicate StrictlySorted(s: seq<DisplayTemplate>) {
    forall i, j :: 0 <= i < j < |s| ==> Before(s[i], s[j])
  }

  /** `s` lists exactly the templates of `keys`, in increasing order. */
  ghost predicate Listing(s: seq<DisplayTemplate>, keys: set<DisplayTemplate>) {
    StrictlySorted(s) && (forall x :: x in s <==> x in keys)
  }

  /** A sorted listing also respects the comparator used by sort.Sort: a template never comes
      after one the comparator puts strictly before it. */
  lemma ListingRespectsLess(s: seq<DisplayTemplate>, i: nat, j: nat)
    requires StrictlySorted(s) && i < j < |s|
    ensures !(Less(s[j], s[i]) && !Less(s[i], s[j]))
  {
    if !SameKey(s[i], s[j]) {
      BeforeAgreesWithLess(s[i], s[j]);
      LessExactlyOne(s[i], s[j]);
    }
  }

  /** Inserts a template at its place in a sorted sequence. */
  function Insert(x: DisplayTemplate, s: seq<DisplayTemplate>): seq<DisplayTemplate> {
    if s == [] then [x]
    else if Before(x, s[0]) then [x] + s
    else [s[0]] + Insert(x, s[1..])
  }

  lemma {:induction false} InsertListing(x: DisplayTemplate, s: seq<DisplayTemplate>, keys: set<DisplayTemplate>)
    requires Listing(s, keys) && x !in keys
    ensures Listing(Insert(x, s), keys + {x})
  {
    if s == [] {
    } else if Before(x, s[0]) {
      forall j | 0 <= j < |s|
        ensures Before(x, s[j])
      {
        if j > 0 {
          BeforeTransitive(x, s[0], s[j]);
        }
      }
      ConsSorted(x, s);
    } else {
      var rest := set y | y in s[1..];
      ListingTail(s, keys, rest);
      InsertListing(x, s[1..], rest);
      var t := Insert(x, s[1..]);
      BeforeTotal(x, s[0]);
      forall j | 0 <= j < |t|
        ensures Before(s[0], t[j])
      {
        assert t[j] in rest + {x};
        if t[j] in s[1..] {
          var k :| 0 <= k < |s[1..]| && s[1..][k] == t[j];
          assert s[k + 1] == t[j];
        }
      }
      ConsSorted(s[0], t);
      assert forall y :: y in [s[0]] + t <==> y == s[0] || y in t;
    }
  }

  /** The tail of a listing lists the set of its own elements. */
  lemma ListingTail(s: seq<DisplayTemplate>, keys: set<DisplayTemplate>, rest: set<DisplayTemplate>)
    requires Listing(s, keys) && s != [] && rest == set y | y in s[1..]
    ensures Listing(s[1..], rest)
    ensures forall y :: y in keys <==> y == s[0] || y in rest
  {
    assert forall y :: y in s <==> y == s[0] || y in s[1..];
  }

  /** A template before every element of a sorted sequence can head it. */
  lemma ConsSorted(h: DisplayTemplate, t: seq<DisplayTemplate>)
    requires StrictlySorted(t)
    requires forall j :: 0 <= j < |t| ==> Before(h, t[j])
    ensures StrictlySorted([h] + t)
  {
    var r := [h] + t;
    assert forall i :: 0 < i < |r| ==> r[i] == t[i - 1];
  }

  /** Two sorted listings of the same set are equal. */
  lemma {:induction false} ListingUnique(s: seq<DisplayTemplate>, t: seq<DisplayTemplate>, keys: set<DisplayTemplate>)
    requires Listing(s, keys) && Listing(t, keys)
    ensures s == t
    decreases |s|
  {
    ListingLength(s, keys);
    ListingLength(t, keys);
    if s != [] {
      if s[0] != t[0] {
        assert s[0] in t && t[0] in s;
        var i :| 0 <= i < |t| && t[i] == s[0];
        var j :| 0 <= j < |s| && s[j] == t[0];
        BeforeIrreflexive(s[0]);
        BeforeIrreflexive(t[0]);
        assert i != 0 && j != 0;
        assert Before(t[0], s[0]);
        assert Before(s[0], t[0]);
        BeforeTotal(s[0], t[0]);
      }
      var rest := keys - {s[0]};
      forall x ensures x in s[1..] <==> x in rest {
        if x in s[1..] {
          var k :| 0 <= k < |s[1..]| && s[1..][k] == x;
          assert s[k + 1] == x;
          BeforeIrreflexive(x);
        }
        assert x in s ==> x == s[0] || x in s[1..];
      }
      forall x ensures x in t[1..] <==> x in rest {
        if x in t[1..] {
          var k :| 0 <= k < |t[1..]| && t[1..][k] == x;
          assert t[k + 1] == x;
          BeforeIrreflexive(x);
        }
        assert x in t ==> x == t[0] || x in t[1..];
      }
      ListingUnique(s[1..], t[1..], rest);
      assert s == [s[0]] + s[1..] && t == [t[0]] + t[1..];
    }
  }

  lemma {:induction false} ListingExists(keys: set<DisplayTemplate>)
    ensures exists s :: Listing(s, keys)
    decreases |keys|
  {
    if keys == {} {
      assert Listing([], keys);
    } else {
      var x :| x in keys;
      ListingExists(keys - {x});
      var s :| Listing(s, keys - {x});
      InsertListing(x, s, keys - {x});
      assert keys - {x} + {x} == keys;
    }
  }

  /** The templates of `keys` in browsing order: the one sorted listing of the set. */
  ghost function SortedDisplays(keys: set<DisplayTemplate>): (s: seq<DisplayTemplate>)
    ensures Listing(s, keys)
    ensures |s| == |keys|
  {
    ListingExists(keys);
    var s :| Listing(s, keys);
    ListingLength(s, keys);
    s
  }

  lemma {:induction false} ListingLength(s: seq<DisplayTemplate>, keys: set<DisplayTemplate>)
    requires Listing(s, keys)
    ensures |s| == |keys|
    decreases |s|
  {
    if s != [] {
      var rest := keys - {s[0]};
      forall x ensures x in s[1..] <==> x in rest {
        if x in s[1..] {
          var k :| 0 <= k < |s[1..]| && s[1..][k] == x;
          assert s[k + 1] == x;
          BeforeIrreflexive(x);
        }
        assert x in s ==> x == s[0] || x in s[1..];
      }
      ListingLength(s[1..], rest);
    } else {
      assert forall x :: x !in keys;
      assert keys == {};
    }
  }
}
