/** Sequence operations behind the adapters' `filter` and `slice` pipelines. */
module Seqs {

  /** `a` is obtained from `b` by deleting elements: every element of `a`
      occurs in `b`, in the same relative order. */
  ghost predicate IsSubsequence<T>(a: seq<T>, b: seq<T>)
    decreases |b|
  {
    if |a| == 0 then true
    else if |b| == 0 then false
    else (a[0] == b[0] && IsSubsequence(a[1..], b[1..])) || IsSubsequence(a, b[1..])
  }

  /** No element occurs twice. */
  ghost predicate Distinct<T>(s: seq<T>)
  {
    forall i, j :: 0 <= i < j < |s| ==> s[i] != s[j]
  }

  /** `Array.prototype.filter`: the elements of `s` that satisfy `keep`. */
  function Filter<T(==,!new)>(s: seq<T>, keep: T -> bool): (r: seq<T>)
    ensures |r| <= |s|
    ensures forall x :: x in r <==> x in s && keep(x)
    ensures forall x :: multiset(r)[x] == if keep(x) then multiset(s)[x] else 0
    ensures IsSubsequence(r, s)
  {
    if |s| == 0 then []
    else
      assert s == [s[0]] + s[1..];
      var rest := Filter(s[1..], keep);
      if keep(s[0]) then
        assert ([s[0]] + rest)[1..] == rest;
        [s[0]] + rest
      else
        rest
  }

  /** `s.slice(0, n)` for a non-negative `n`: the first `n` elements, or all
      of `s` when it is shorter. */
  function Take<T>(s: seq<T>, n: nat): (r: seq<T>)
    ensures r <= s
    ensures |r| == if n <= |s| then n else |s|
  {
    if n <= |s| then s[..n] else s
  }

  lemma {:induction false} SubsequenceMembers<T>(a: seq<T>, b: seq<T>)
    requires IsSubsequence(a, b)
    ensures forall x :: x in a ==> x in b
    decreases |b|
  {
    if |a| > 0 {
      if a[0] == b[0] && IsSubsequence(a[1..], b[1..]) {
        SubsequenceMembers(a[1..], b[1..]);
        assert a == [a[0]] + a[1..];
      } else {
        SubsequenceMembers(a, b[1..]);
      }
    }
  }

  /** A prefix of a subsequence is a subsequence. */
  lemma {:induction false} PrefixOfSubsequence<T>(a: seq<T>, b: seq<T>, n: nat)
    requires IsSubsequence(a, b)
    requires n <= |a|
    ensures IsSubsequence(a[..n], b)
    decreases |b|
  {
    if n > 0 {
      if a[0] == b[0] && IsSubsequence(a[1..], b[1..]) {
        PrefixOfSubsequence(a[1..], b[1..], n - 1);
        assert a[..n][1..] == a[1..][..n - 1];
      } else {
        PrefixOfSubsequence(a, b[1..], n);
      }
    }
  }

  /** Filtering a duplicate-free sequence by membership in one of its
      subsequences gives back that subsequence: the order of a subsequence is
      fixed by the sequence it is drawn from. */
  lemma {:induction false} FilterBySubsequence<T(!new)>(m: seq<T>, c: seq<T>, keep: T -> bool)
    requires Distinct(m)
    requires IsSubsequence(c, m)
    requires forall x :: x in m ==> (keep(x) <==> x in c)
    ensures Filter(m, keep) == c
    decreases |m|
  {
    if |m| == 0 {
    } else if |c| > 0 && c[0] == m[0] && IsSubsequence(c[1..], m[1..]) {
      assert m[0] !in m[1..] by {
        forall j | 0 <= j < |m[1..]| ensures m[1..][j] != m[0] {
          assert m[1..][j] == m[j + 1];
        }
      }
      assert c == [c[0]] + c[1..];
      FilterBySubsequence(m[1..], c[1..], keep);
    } else {
      if |c| > 0 {
        assert IsSubsequence(c, m[1..]);
        SubsequenceMembers(c, m[1..]);
        assert m[0] !in m[1..] by {
          forall j | 0 <= j < |m[1..]| ensures m[1..][j] != m[0] {
            assert m[1..][j] == m[j + 1];
          }
        }
        FilterBySubsequence(m[1..], c, keep);
      }
    }
  }
}
