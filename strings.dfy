/** Lexicographic order on strings, as Go's strings.Compare defines it. */
module Strings {

  /** Three-way comparison: -1 when `a` sorts before `b`, 0 when they are equal, 1 when `a`
      sorts after `b`. Characters are compared by code; a proper prefix sorts first. */
  function Compare(a: string, b: string): (c: int)
    ensures c == -1 || c == 0 || c == 1
  {
    if a == [] then (if b == [] then 0 else -1)
    else if b == [] then 1
    else if a[0] < b[0] then -1
    else if b[0] < a[0] then 1
    else Compare(a[1..], b[1..])
  }

  /** `a` sorts strictly before `b` (strings.Compare(a, b) == -1). */
  predicate Less(a: string, b: string) {
    Compare(a, b) == -1
  }

  /** Reference definition of the lexicographic order: `a` and `b` agree on their first
      `k` characters, and there `a` either ends while `b` goes on, or has the smaller character. */
  ghost predicate FirstDifference(a: string, b: string, k: nat) {
    && k <= |a| && k <= |b|
    && a[..k] == b[..k]
    && ((k == |a| && k < |b|) || (k < |a| && k < |b| && a[k] < b[k]))
  }

  lemma {:induction false} CompareZeroIffEqual(a: string, b: string)
    ensures Compare(a, b) == 0 <==> a == b
  {
    if a != [] && b != [] && a[0] == b[0] {
      CompareZeroIffEqual(a[1..], b[1..]);
      assert a == [a[0]] + a[1..] && b == [b[0]] + b[1..];
    }
  }

  lemma {:induction false} CompareAntisymmetric(a: string, b: string)
    ensures Compare(b, a) == -Compare(a, b)
  {
    if a != [] && b != [] && a[0] == b[0] {
      CompareAntisymmetric(a[1..], b[1..]);
    }
  }

  /** Two different strings are ordered one way or the other, never both. */
  lemma LessTotal(a: string, b: string)
    ensures a != b ==> (Less(a, b) <==> !Less(b, a))
    ensures !Less(a, a)
  {
    CompareZeroIffEqual(a, b);
    CompareAntisymmetric(a, b);
    CompareZeroIffEqual(a, a);
  }

  lemma {:induction false} LessTransitive(a: string, b: string, c: string)
    requires Less(a, b) && Less(b, c)
    ensures Less(a, c)
  {
    if a != [] && b != [] && c != [] && a[0] == b[0] && b[0] == c[0] {
      LessTransitive(a[1..], b[1..], c[1..]);
    }
  }

  /** Compare agrees with the reference definition of the lexicographic order. */
  lemma {:induction false} LessIffFirstDifference(a: string, b: string)
    ensures Less(a, b) <==> exists k :: FirstDifference(a, b, k)
  {
    if Less(a, b) {
      var k := LessWitness(a, b);
    }
    if exists k :: FirstDifference(a, b, k) {
      var k :| FirstDifference(a, b, k);
      FirstDifferenceLess(a, b, k);
    }
  }

  lemma {:induction false} LessWitness(a: string, b: string) returns (k: nat)
    requires Less(a, b)
    ensures FirstDifference(a, b, k)
  {
    if a == [] {
      k := 0;
    } else if a[0] < b[0] {
      k := 0;
    } else {
      var k' := LessWitness(a[1..], b[1..]);
      k := k' + 1;
      assert a[..k] == [a[0]] + a[1..][..k'];
      assert b[..k] == [b[0]] + b[1..][..k'];
    }
  }

  lemma {:induction false} FirstDifferenceLess(a: string, b: string, k: nat)
    requires FirstDifference(a, b, k)
    ensures Less(a, b)
  {
    if k > 0 {
      assert a[0] == a[..k][0] == b[..k][0] == b[0];
      assert a[1..][..k - 1] == a[1..k] == b[1..k] == b[1..][..k - 1];
      FirstDifferenceLess(a[1..], b[1..], k - 1);
    }
  }
}
