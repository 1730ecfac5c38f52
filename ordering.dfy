/**
 * Python's ordering of `str` values (code point by code point, a proper
 * prefix first) and `sorted(d.keys())` for a dictionary with string keys.
 */
module Ordering {

  /** `a < b` on Python strings. Dafny's own `<` on sequences means "proper prefix". */
  predicate Less(a: string, b: string)
    decreases |a|
  {
    if a == [] then b != []
    else if b == [] then false
    else if a[0] != b[0] then a[0] < b[0]
    else Less(a[1..], b[1..])
  }

  lemma {:induction false} LessIrreflexive(a: string)
    ensures !Less(a, a)
    decreases |a|
  {
    if a != [] {
      LessIrreflexive(a[1..]);
    }
  }

  lemma {:induction false} LessTransitive(a: string, b: string, c: string)
    requires Less(a, b) && Less(b, c)
    ensures Less(a, c)
    decreases |a|
  {
    if a != [] && a[0] == b[0] && b[0] == c[0] {
      LessTransitive(a[1..], b[1..], c[1..]);
    }
  }

  lemma {:induction false} LessTotal(a: string, b: string)
    requires a != b
    ensures Less(a, b) || Less(b, a)
    decreases |a|
  {
    if a != [] && b != [] && a[0] == b[0] {
      assert a == [a[0]] + a[1..] && b == [b[0]] + b[1..];
      LessTotal(a[1..], b[1..]);
    }
  }

  lemma {:induction false} LessAsymmetric(a: string, b: string)
    ensures Less(a, b) ==> !Less(b, a)
    decreases |a|
  {
    if a != [] && b != [] && a[0] == b[0] {
      LessAsymmetric(a[1..], b[1..]);
    }
  }

  /** Every element is below every later one; in particular no key occurs twice. */
  predicate StrictlyAscending(s: seq<string>) {
    forall i, j :: 0 <= i < j < |s| ==> Less(s[i], s[j])
  }

  lemma AscendingDistinct(s: seq<string>)
    requires StrictlyAscending(s)
    ensures forall i, j :: 0 <= i < j < |s| ==> s[i] != s[j]
  {
    forall i, j | 0 <= i < j < |s| ensures s[i] != s[j] {
      LessIrreflexive(s[i]);
    }
  }

  /** Two strictly ascending sequences with the same elements are equal: `sorted` has one possible result. */
  lemma {:induction false} AscendingUnique(s1: seq<string>, s2: seq<string>)
    requires StrictlyAscending(s1) && StrictlyAscending(s2)
    requires forall x :: x in s1 <==> x in s2
    ensures s1 == s2
    decreases |s1|
  {
    assert |s1| > 0 ==> s1[0] in s2;
    assert |s2| > 0 ==> s2[0] in s1;
    if s1 != [] && s2 != [] {
      var j :| 0 <= j < |s2| && s2[j] == s1[0];
      var k :| 0 <= k < |s1| && s1[k] == s2[0];
      LessAsymmetric(s1[0], s2[0]);
      AscendingDistinct(s1);
      AscendingDistinct(s2);
      assert s1[0] == s2[0];
      forall x ensures x in s1[1..] <==> x in s2[1..] {
        assert x in s1[1..] <==> x in s1 && x != s1[0];
        assert x in s2[1..] <==> x in s2 && x != s2[0];
      }
      AscendingUnique(s1[1..], s2[1..]);
      assert s1 == [s1[0]] + s1[1..] && s2 == [s2[0]] + s2[1..];
    }
  }

  /** Places a new key into an ascending sequence of keys. */
  function Insert(s: seq<string>, k: string): (r: seq<string>)
    requires StrictlyAscending(s) && k !in s
    ensures StrictlyAscending(r)
    ensures |r| == |s| + 1
    ensures forall x :: x in r <==> x in s || x == k
  {
    if s == [] then [k]
    else if Less(k, s[0]) then
      assert forall j :: 0 < j < |s| ==> Less(k, s[j]) by {
        forall j | 0 < j < |s| ensures Less(k, s[j]) {
          LessTransitive(k, s[0], s[j]);
        }
      }
      [k] + s
    else
      var tail := Insert(s[1..], k);
      LessTotal(k, s[0]);
      assert forall x :: x in tail ==> Less(s[0], x);
      [s[0]] + tail
  }

  /**
   * `sorted(keys)`: every key exactly once, in ascending order. Python's
   * sort itself is library code; this builds the same sequence by insertion.
   */
  method SortedKeys(keys: set<string>) returns (s: seq<string>)
    ensures StrictlyAscending(s)
    ensures |s| == |keys|
    ensures forall k :: k in s <==> k in keys
  {
    s := [];
    var rest := keys;
    while rest != {}
      invariant rest <= keys
      invariant StrictlyAscending(s)
      invariant |s| + |rest| == |keys|
      invariant forall k :: k in s <==> k in keys && k !in rest
      decreases |rest|
    {
      var k :| k in rest;
      s := Insert(s, k);
      rest := rest - {k};
    }
  }
}
