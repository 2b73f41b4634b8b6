/** The default `Array.prototype.sort()` on a list of component names,
    modelled as insertion sort over `seq<string>` in the `Below` order. */
module Sorting {
  import opened Text

  /** Every earlier element is `Below` every later one. */
  predicate Sorted(s: seq<string>) {
    forall i, j :: 0 <= i < j < |s| ==> Below(s[i], s[j])
  }

  /** Places `x` into `s`: before the first element it is `Below`,
      or at the end. */
  function Insert(x: string, s: seq<string>): (r: seq<string>)
    ensures |r| == |s| + 1
    ensures multiset(r) == multiset(s) + multiset{x}
  {
    if |s| == 0 then [x]
    else if Below(x, s[0]) then [x] + s
    else
      assert s == [s[0]] + s[1..];
      [s[0]] + Insert(x, s[1..])
  }

  /** When `x` goes after the head, the head stays below everything that
      follows it. */
  lemma HeadBelowInsert(x: string, s: seq<string>)
    requires Sorted(s) && |s| > 0 && Below(s[0], x)
    ensures forall j :: 0 <= j < |Insert(x, s[1..])| ==> Below(s[0], Insert(x, s[1..])[j])
  {
    var t := Insert(x, s[1..]);
    forall j | 0 <= j < |t|
      ensures Below(s[0], t[j])
    {
      assert t[j] in multiset(t);
      if t[j] != x {
        assert t[j] in multiset(s[1..]);
        var k :| 0 <= k < |s[1..]| && s[1..][k] == t[j];
        assert s[k + 1] == t[j];
      }
    }
  }

  lemma {:induction false} InsertKeepsSorted(x: string, s: seq<string>)
    requires Sorted(s)
    ensures Sorted(Insert(x, s))
  {
    var r := Insert(x, s);
    if |s| == 0 {
    } else if Below(x, s[0]) {
      forall j | 0 < j < |r|
        ensures Below(r[0], r[j])
      {
        if j > 1 {
          BelowTransitive(x, s[0], s[j - 1]);
        }
      }
    } else {
      BelowTotal(x, s[0]);
      InsertKeepsSorted(x, s[1..]);
      HeadBelowInsert(x, s);
      assert r == [s[0]] + Insert(x, s[1..]);
    }
  }

  /** `components.sort()`: a sorted permutation of the input. */
  function SortNames(s: seq<string>): (r: seq<string>)
    ensures Sorted(r)
    ensures multiset(r) == multiset(s)
  {
    if |s| == 0 then []
    else
      var t := SortNames(s[1..]);
      InsertKeepsSorted(s[0], t);
      assert s == [s[0]] + s[1..];
      Insert(s[0], t)
  }

  /** The head of a non-empty sorted list is `Below` everything in it. */
  lemma HeadIsLeast(a: seq<string>, x: string)
    requires Sorted(a) && x in multiset(a)
    ensures |a| > 0 && Below(a[0], x)
  {
    var k :| 0 <= k < |a| && a[k] == x;
    if k == 0 {
      BelowReflexive(x);
    }
  }

  /** Removing the head removes exactly one copy of it from the multiset. */
  lemma TailMultiset(a: seq<string>)
    requires |a| > 0
    ensures multiset(a[1..]) == multiset(a) - multiset{a[0]}
  {
    assert a == [a[0]] + a[1..];
  }

  /** There is exactly one sorted arrangement of a multiset of names, so
      the result of `SortNames` does not depend on how it sorts. */
  lemma {:induction false} SortedPermutationUnique(a: seq<string>, b: seq<string>)
    requires Sorted(a) && Sorted(b)
    requires multiset(a) == multiset(b)
    ensures a == b
  {
    if |a| == 0 {
      assert |multiset(b)| == 0;
    } else {
      assert a[0] in multiset(b);
      HeadIsLeast(b, a[0]);
      assert b[0] in multiset(a);
      HeadIsLeast(a, b[0]);
      BelowAntisymmetric(a[0], b[0]);
      TailMultiset(a);
      TailMultiset(b);
      SortedPermutationUnique(a[1..], b[1..]);
      assert a == [a[0]] + a[1..];
      assert b == [b[0]] + b[1..];
    }
  }

  /** Sorting an already sorted list changes nothing, so sorting is idempotent. */
  lemma SortSorted(s: seq<string>)
    requires Sorted(s)
    ensures SortNames(s) == s
  {
    SortedPermutationUnique(SortNames(s), s);
  }

  lemma SortIdempotent(s: seq<string>)
    ensures SortNames(SortNames(s)) == SortNames(s)
  {
    SortSorted(SortNames(s));
  }
}
