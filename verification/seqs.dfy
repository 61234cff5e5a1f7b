/** Operations on the game's lists of object references (Python lists compared by identity). */
module Seqs {

  /** No element occurs twice. */
  predicate Distinct<T(==)>(s: seq<T>)
  {
    forall i, j :: 0 <= i < j < |s| ==> s[i] != s[j]
  }

  /** Python's `list.remove(x)`: drops the first occurrence of x; x must be present (else ValueError). */
  function Remove<T(==)>(s: seq<T>, x: T): (r: seq<T>)
    requires x in s
    ensures |r| == |s| - 1
  {
    if s[0] == x then
      assert s == [s[0]] + s[1..];
      s[1..]
    else
      var r := [s[0]] + Remove(s[1..], x);
      assert s == [s[0]] + s[1..];
      r
  }

  /** Removal takes away exactly one occurrence of x and nothing else. */
  lemma {:induction false} RemoveOne<T>(s: seq<T>, x: T)
    requires x in s
    ensures multiset(Remove(s, x)) == multiset(s) - multiset{x}
  {
    assert s == [s[0]] + s[1..];
    if s[0] != x {
      RemoveOne(s[1..], x);
    }
  }

  /** The elements of s not in gone, in their original order. */
  function Without<T(==)>(s: seq<T>, gone: set<T>): (r: seq<T>)
    ensures forall i :: 0 <= i < |r| ==> r[i] !in gone
    ensures |r| <= |s|
  {
    if s == [] then []
    else if s[0] in gone then Without(s[1..], gone)
    else [s[0]] + Without(s[1..], gone)
  }

  /** Filtering adds nothing: every element kept comes from the list. */
  lemma {:induction false} WithoutSubset<T>(s: seq<T>, gone: set<T>)
    ensures forall i :: 0 <= i < |Without(s, gone)| ==> Without(s, gone)[i] in s
  {
    if s != [] {
      WithoutSubset(s[1..], gone);
    }
  }

  /** Filtering keeps every element not filtered out. */
  lemma {:induction false} WithoutKeeps<T>(s: seq<T>, gone: set<T>, x: T)
    requires x in s && x !in gone
    ensures x in Without(s, gone)
  {
    if s[0] != x {
      WithoutKeeps(s[1..], gone, x);
    }
  }

  /** The elements of s satisfying p, in their original order. */
  function Select<T>(s: seq<T>, p: T -> bool): (r: seq<T>)
    ensures forall i :: 0 <= i < |r| ==> r[i] in s && p(r[i])
    ensures |r| <= |s|
  {
    if s == [] then []
    else if p(s[0]) then [s[0]] + Select(s[1..], p)
    else Select(s[1..], p)
  }

  /** Index of the first element satisfying p, or |s| when there is none. */
  function FirstWhere<T>(s: seq<T>, p: T -> bool): (k: nat)
    ensures k <= |s|
    ensures k < |s| ==> p(s[k])
    ensures forall j :: 0 <= j < k ==> !p(s[j])
  {
    if s == [] then 0
    else if p(s[0]) then 0
    else 1 + FirstWhere(s[1..], p)
  }

  /** Removing one element of a list without repeats is the same as filtering it out. */
  lemma {:induction false} RemoveIsWithout<T>(s: seq<T>, x: T)
    requires Distinct(s) && x in s
    ensures Remove(s, x) == Without(s, {x})
  {
    if s[0] == x {
      assert x !in s[1..] by {
        forall j | 1 <= j < |s| ensures s[j] != x { }
      }
      WithoutNothing(s[1..], {x});
    } else {
      RemoveIsWithout(s[1..], x);
    }
  }

  /** Filtering out elements none of which occur changes nothing. */
  lemma {:induction false} WithoutNothing<T>(s: seq<T>, gone: set<T>)
    requires forall x :: x in s ==> x !in gone
    ensures Without(s, gone) == s
  {
    if s != [] {
      WithoutNothing(s[1..], gone);
    }
  }

  /** Two filters in a row are one filter by the union. */
  lemma {:induction false} WithoutTwice<T>(s: seq<T>, a: set<T>, b: set<T>)
    ensures Without(Without(s, a), b) == Without(s, a + b)
  {
    if s != [] {
      WithoutTwice(s[1..], a, b);
    }
  }

  /** Filtering keeps a list free of repeats. */
  lemma {:induction false} WithoutDistinct<T>(s: seq<T>, gone: set<T>)
    requires Distinct(s)
    ensures Distinct(Without(s, gone))
  {
    if s != [] {
      assert Distinct(s[1..]);
      WithoutDistinct(s[1..], gone);
      WithoutSubset(s[1..], gone);
      if s[0] !in gone {
        assert s[0] !in s[1..];
      }
    }
  }

  /** Appending a new element keeps a list free of repeats. */
  lemma AppendDistinct<T>(s: seq<T>, x: T)
    requires Distinct(s) && x !in s
    ensures Distinct(s + [x])
  {
  }

  /** Splitting a list by p: the selected part and the filtered rest add up to the whole. */
  lemma {:induction false} SelectWithoutCount<T>(s: seq<T>, p: T -> bool, gone: set<T>)
    requires forall x :: x in s ==> (x in gone <==> p(x))
    ensures |Select(s, p)| + |Without(s, gone)| == |s|
  {
    if s != [] {
      SelectWithoutCount(s[1..], p, gone);
    }
  }

  /** Filters that agree on the list's elements give the same result. */
  lemma {:induction false} WithoutAgree<T>(s: seq<T>, a: set<T>, b: set<T>)
    requires forall i :: 0 <= i < |s| ==> (s[i] in a <==> s[i] in b)
    ensures Without(s, a) == Without(s, b)
  {
    if s != [] {
      WithoutAgree(s[1..], a, b);
    }
  }

  /** Extending a prefix by one index adds exactly that element. */
  lemma PrefixGrows<T>(s: seq<T>, j: int)
    requires 0 <= j < |s|
    ensures forall x :: x in s[..j + 1] <==> x in s[..j] || x == s[j]
  {
    assert s[..j + 1] == s[..j] + [s[j]];
  }

  /** `if x in t: t.remove(x)` on a filtered list without repeats is one more filter. */
  lemma RemoveFromFiltered<T>(s: seq<T>, gone: set<T>, x: T)
    requires Distinct(s)
    ensures Distinct(Without(s, gone))
    ensures x in Without(s, gone) ==> Remove(Without(s, gone), x) == Without(s, gone + {x})
    ensures x !in Without(s, gone) ==> Without(s, gone) == Without(s, gone + {x})
  {
    WithoutDistinct(s, gone);
    WithoutTwice(s, gone, {x});
    if x in Without(s, gone) {
      RemoveIsWithout(Without(s, gone), x);
    } else {
      WithoutNothing(Without(s, gone), {x});
    }
  }

  /** Every element of s satisfying p is selected. */
  lemma {:induction false} SelectKeeps<T>(s: seq<T>, p: T -> bool, x: T)
    requires x in s && p(x)
    ensures x in Select(s, p)
  {
    if s[0] != x {
      SelectKeeps(s[1..], p, x);
    }
  }

  /** Selecting over a list extended by one element. */
  lemma {:induction false} SelectSnoc<T>(s: seq<T>, p: T -> bool, x: T)
    ensures Select(s + [x], p) == Select(s, p) + if p(x) then [x] else []
  {
    if s == [] {
      assert [x][1..] == [];
    } else {
      assert (s + [x])[1..] == s[1..] + [x];
      SelectSnoc(s[1..], p, x);
    }
  }
}
