/**
 * Facts about lists that the option builders rely on: distinct entries, removing every
 * copy of a value (`filter(n => n !== x)`), and how both interact with permutations.
 */
module Seqs {

  predicate Distinct<T(==)>(s: seq<T>) {
    forall i, j :: 0 <= i < j < |s| ==> s[i] != s[j]
  }

  /** Distinctness read off the multiset: no value occurs twice. */
  lemma {:induction false} DistinctIffSingleCopies<T>(s: seq<T>)
    ensures Distinct(s) <==> forall x | x in multiset(s) :: multiset(s)[x] == 1
  {
    if s != [] {
      var t := s[1..];
      assert s == [s[0]] + t;
      DistinctIffSingleCopies(t);
      if Distinct(s) {
        assert s[0] !in t by {
          forall k | 0 <= k < |t| ensures t[k] != s[0] {
            assert t[k] == s[k + 1];
          }
        }
        assert Distinct(t) by {
          forall i, j | 0 <= i < j < |t| ensures t[i] != t[j] {
            assert t[i] == s[i + 1] && t[j] == s[j + 1];
          }
        }
      } else if forall x | x in multiset(s) :: multiset(s)[x] == 1 {
        assert s[0] !in t by {
          assert multiset(s)[s[0]] == 1 + multiset(t)[s[0]];
        }
        assert forall x | x in multiset(t) :: multiset(t)[x] == 1 by {
          forall x | x in multiset(t) ensures multiset(t)[x] == 1 {
            assert multiset(s)[x] == multiset(t)[x] + (if x == s[0] then 1 else 0);
          }
        }
        assert Distinct(s) by {
          forall i, j | 0 <= i < j < |s| ensures s[i] != s[j] {
            if i == 0 {
              assert s[j] == t[j - 1];
            } else {
              assert s[i] == t[i - 1] && s[j] == t[j - 1];
            }
          }
        }
      }
    }
  }

  /** Reordering a list neither creates nor removes duplicates. */
  lemma PermutationKeepsDistinct<T>(s: seq<T>, t: seq<T>)
    requires multiset(s) == multiset(t)
    requires Distinct(s)
    ensures Distinct(t)
  {
    DistinctIffSingleCopies(s);
    DistinctIffSingleCopies(t);
  }

  lemma DistinctPrefix<T>(s: seq<T>, k: nat)
    requires Distinct(s) && k <= |s|
    ensures Distinct(s[..k])
  {
  }

  /** In a list without duplicates a member occurs exactly once. */
  lemma DistinctOccursOnce<T>(s: seq<T>, x: T)
    requires Distinct(s) && x in s
    ensures multiset(s)[x] == 1
  {
    DistinctIffSingleCopies(s);
  }

  /** `s.filter(y => y !== x)`. */
  function Without<T(==,!new)>(s: seq<T>, x: T): (r: seq<T>)
    ensures x !in r
    ensures forall y :: y in r <==> y in s && y != x
  {
    if s == [] then []
    else if s[0] == x then Without(s[1..], x) else [s[0]] + Without(s[1..], x)
  }

  /** The filter drops every copy of `x` and keeps every copy of anything else. */
  lemma {:induction false} WithoutCounts<T(!new)>(s: seq<T>, x: T)
    ensures multiset(Without(s, x)) == multiset(s)[x := 0]
    ensures |Without(s, x)| == |s| - multiset(s)[x]
  {
    if s != [] {
      assert s == [s[0]] + s[1..];
      WithoutCounts(s[1..], x);
    }
  }

  /** Filtering keeps a list free of duplicates. */
  lemma {:induction false} WithoutKeepsDistinct<T(!new)>(s: seq<T>, x: T)
    requires Distinct(s)
    ensures Distinct(Without(s, x))
  {
    var r := Without(s, x);
    WithoutCounts(s, x);
    PermutationKeepsDistinct(s, s);
    DistinctIffSingleCopies(s);
    DistinctIffSingleCopies(r);
  }

  /** `s.filter(y => !excluded.includes(y))`. */
  function WithoutAll<T(==,!new)>(s: seq<T>, excluded: seq<T>): (r: seq<T>)
    ensures forall y :: y in r <==> y in s && y !in excluded
    ensures multiset(r) <= multiset(s)
    ensures forall y | y !in excluded :: multiset(r)[y] == multiset(s)[y]
  {
    if s == [] then []
    else
      assert s == [s[0]] + s[1..];
      if s[0] in excluded then WithoutAll(s[1..], excluded)
      else [s[0]] + WithoutAll(s[1..], excluded)
  }

  lemma DistinctTail<T>(s: seq<T>)
    requires Distinct(s) && s != []
    ensures Distinct(s[1..]) && s[0] !in s[1..]
  {
    var t := s[1..];
    forall k | 0 <= k < |t| ensures t[k] != s[0] {
      assert t[k] == s[k + 1];
    }
  }

  lemma DistinctCons<T>(x: T, r: seq<T>)
    requires Distinct(r) && x !in r
    ensures Distinct([x] + r)
  {
    var c := [x] + r;
    forall i, j | 0 <= i < j < |c| ensures c[i] != c[j] {
      assert c[j] == r[j - 1];
      if i > 0 {
        assert c[i] == r[i - 1];
      }
    }
  }

  /** Two duplicate-free lists with nothing in common concatenate to a duplicate-free list. */
  lemma DistinctAppend<T>(a: seq<T>, b: seq<T>)
    requires Distinct(a) && Distinct(b)
    requires forall i, j | 0 <= i < |a| && 0 <= j < |b| :: a[i] != b[j]
    ensures Distinct(a + b)
  {
    var c := a + b;
    forall i, j | 0 <= i < j < |c| ensures c[i] != c[j] {
      if j < |a| {
        assert c[i] == a[i] && c[j] == a[j];
      } else if i < |a| {
        assert c[i] == a[i] && c[j] == b[j - |a|];
      } else {
        assert c[i] == b[i - |a|] && c[j] == b[j - |a|];
      }
    }
  }

  /** What survives the filter of a duplicate-free list: all but at most |excluded| entries. */
  lemma {:induction false} WithoutAllLength<T(!new)>(s: seq<T>, excluded: seq<T>)
    requires Distinct(s)
    ensures Distinct(WithoutAll(s, excluded))
    ensures |WithoutAll(s, excluded)| >= |s| - |excluded|
  {
    if s != [] {
      var t := s[1..];
      DistinctTail(s);
      if s[0] in excluded {
        var e := Without(excluded, s[0]);
        WithoutCounts(excluded, s[0]);
        WithoutAllLength(t, e);
        WithoutAllAgree(t, e, excluded, s[0]);
      } else {
        WithoutAllLength(t, excluded);
        DistinctCons(s[0], WithoutAll(t, excluded));
      }
    }
  }

  /** Two exclusion lists that agree on the members of `t` filter `t` the same way. */
  lemma {:induction false} WithoutAllAgree<T(!new)>(t: seq<T>, e: seq<T>, excluded: seq<T>, x: T)
    requires x !in t
    requires forall y :: y in e <==> y in excluded && y != x
    ensures WithoutAll(t, e) == WithoutAll(t, excluded)
  {
    if t != [] {
      WithoutAllAgree(t[1..], e, excluded, x);
    }
  }

  /** The first position of the smallest value (what a stable sort puts first). */
  function FirstMinIndex(s: seq<int>): (r: nat)
    requires |s| > 0
    ensures r < |s|
    ensures forall j | 0 <= j < |s| :: s[r] <= s[j]
    ensures forall j | 0 <= j < r :: s[j] > s[r]
  {
    if |s| == 1 then 0
    else
      var k := FirstMinIndex(s[..|s| - 1]);
      if s[|s| - 1] < s[k] then |s| - 1 else k
  }
}
