/**
 * Python's `sorted(xs, key=...)`: an insertion sort under a total preorder. Used for the
 * folder listings of the preview servers, the golden-file comparison and the colour grid.
 */
module Sorting {

  /** `le` is total and transitive: the order `sorted` needs for a meaningful result. */
  ghost predicate TotalPreorder<T(!new)>(le: (T, T) -> bool)
  {
    (forall a, b :: le(a, b) || le(b, a)) &&
    (forall a, b, c :: le(a, b) && le(b, c) ==> le(a, c))
  }

  predicate SortedBy<T>(s: seq<T>, le: (T, T) -> bool)
  {
    forall i, j :: 0 <= i < j < |s| ==> le(s[i], s[j])
  }

  /** Insert `x` into sorted `s` after every element that is not greater than it. */
  function Insert<T(!new)>(x: T, s: seq<T>, le: (T, T) -> bool): (r: seq<T>)
    requires TotalPreorder(le) && SortedBy(s, le)
    ensures multiset(r) == multiset(s) + multiset{x}
    ensures |r| == |s| + 1
    ensures SortedBy(r, le)
    decreases |s|
  {
    if |s| == 0 then [x]
    else if le(s[|s| - 1], x) then s + [x]
    else
      var last := s[|s| - 1];
      var front := Insert(x, s[..|s| - 1], le);
      assert s == s[..|s| - 1] + [last];
      assert forall k :: 0 <= k < |front| ==> le(front[k], last) by {
        forall k | 0 <= k < |front| ensures le(front[k], last) {
          var e := front[k];
          assert e in multiset(front);
          if e != x {
            assert e in multiset(s[..|s| - 1]);
            var m :| 0 <= m < |s| - 1 && s[m] == e;
          }
        }
      }
      front + [last]
  }

  /** `sorted(s)`: a sorted permutation of `s`. */
  function Sort<T(!new)>(s: seq<T>, le: (T, T) -> bool): (r: seq<T>)
    requires TotalPreorder(le)
    ensures multiset(r) == multiset(s)
    ensures |r| == |s|
    ensures SortedBy(r, le)
    decreases |s|
  {
    if |s| == 0 then []
    else
      assert s == s[..|s| - 1] + [s[|s| - 1]];
      Insert(s[|s| - 1], Sort(s[..|s| - 1], le), le)
  }

  /** Lexicographic order on strings, as Python compares `str` values. */
  predicate StrLe(a: string, b: string)
    decreases |a|
  {
    |a| == 0 || (|b| > 0 && (a[0] < b[0] || (a[0] == b[0] && StrLe(a[1..], b[1..]))))
  }

  lemma {:induction false} StrLeTotal(a: string, b: string)
    ensures StrLe(a, b) || StrLe(b, a)
    decreases |a|
  {
    if |a| > 0 && |b| > 0 && a[0] == b[0] {
      StrLeTotal(a[1..], b[1..]);
    }
  }

  lemma {:induction false} StrLeTrans(a: string, b: string, c: string)
    requires StrLe(a, b) && StrLe(b, c)
    ensures StrLe(a, c)
    decreases |a|
  {
    if |a| > 0 && a[0] == b[0] && b[0] == c[0] {
      StrLeTrans(a[1..], b[1..], c[1..]);
    }
  }

  /** Lexicographic order on sequences of strings, as Python compares tuples and paths. */
  predicate PartsLe(a: seq<string>, b: seq<string>)
    decreases |a|
  {
    |a| == 0 || (|b| > 0 && ((StrLe(a[0], b[0]) && a[0] != b[0]) || (a[0] == b[0] && PartsLe(a[1..], b[1..]))))
  }

  lemma {:induction false} StrLeAntisym(a: string, b: string)
    requires StrLe(a, b) && StrLe(b, a)
    ensures a == b
    decreases |a|
  {
    if |a| > 0 {
      StrLeAntisym(a[1..], b[1..]);
      assert a == [a[0]] + a[1..] && b == [b[0]] + b[1..];
    }
  }

  lemma {:induction false} PartsLeTotal(a: seq<string>, b: seq<string>)
    ensures PartsLe(a, b) || PartsLe(b, a)
    decreases |a|
  {
    if |a| > 0 && |b| > 0 {
      if a[0] == b[0] {
        PartsLeTotal(a[1..], b[1..]);
      } else {
        StrLeTotal(a[0], b[0]);
      }
    }
  }

  lemma {:induction false} PartsLeTrans(a: seq<string>, b: seq<string>, c: seq<string>)
    requires PartsLe(a, b) && PartsLe(b, c)
    ensures PartsLe(a, c)
    decreases |a|
  {
    if |a| > 0 {
      if a[0] == b[0] && b[0] == c[0] {
        PartsLeTrans(a[1..], b[1..], c[1..]);
      } else if a[0] == b[0] {
        assert StrLe(b[0], c[0]) && b[0] != c[0];
      } else if b[0] == c[0] {
        assert StrLe(a[0], b[0]) && a[0] != b[0];
      } else {
        StrLeTrans(a[0], b[0], c[0]);
        if a[0] == c[0] {
          StrLeAntisym(a[0], b[0]);
        }
      }
    }
  }

  /** Comparing by a key string is a total preorder, so `sorted(..., key=...)` is well defined. */
  lemma KeyOrderIsTotalPreorder<T(!new)>(le: (T, T) -> bool, key: T -> string)
    requires forall a, b :: le(a, b) == StrLe(key(a), key(b))
    ensures TotalPreorder(le)
  {
    forall a: T, b: T ensures le(a, b) || le(b, a) {
      StrLeTotal(key(a), key(b));
    }
    forall a: T, b: T, c: T | le(a, b) && le(b, c) ensures le(a, c) {
      StrLeTrans(key(a), key(b), key(c));
    }
  }

  lemma PartsOrderIsTotalPreorder()
    ensures TotalPreorder((a: seq<string>, b: seq<string>) => PartsLe(a, b))
  {
    forall a: seq<string>, b: seq<string> ensures PartsLe(a, b) || PartsLe(b, a) {
      PartsLeTotal(a, b);
    }
    forall a: seq<string>, b: seq<string>, c: seq<string> | PartsLe(a, b) && PartsLe(b, c)
      ensures PartsLe(a, c)
    {
      PartsLeTrans(a, b, c);
    }
  }

  /** The elements of `s` that satisfy `p`, in order (a list comprehension with an `if`). */
  function Filter<T>(s: seq<T>, p: T -> bool): (r: seq<T>)
    ensures |r| <= |s|
    ensures forall k :: 0 <= k < |r| ==> p(r[k])
    decreases |s|
  {
    if |s| == 0 then []
    else Filter(s[..|s| - 1], p) + (if p(s[|s| - 1]) then [s[|s| - 1]] else [])
  }

  /** Filtering keeps each element that satisfies `p` as often as it occurs, and no other. */
  lemma {:induction false} FilterCount<T>(s: seq<T>, p: T -> bool, x: T)
    ensures multiset(Filter(s, p))[x] == if p(x) then multiset(s)[x] else 0
    decreases |s|
  {
    if |s| > 0 {
      FilterCount(s[..|s| - 1], p, x);
      assert s == s[..|s| - 1] + [s[|s| - 1]];
    }
  }

  /** Filtering a permutation gives a permutation of the filtered sequence. */
  lemma FilterPermutation<T>(s: seq<T>, t: seq<T>, p: T -> bool)
    requires multiset(s) == multiset(t)
    ensures forall x :: multiset(Filter(s, p))[x] == multiset(Filter(t, p))[x]
  {
    forall x ensures multiset(Filter(s, p))[x] == multiset(Filter(t, p))[x] {
      FilterCount(s, p, x);
      FilterCount(t, p, x);
    }
  }

  /** Every element of the filtered sequence comes from the input, in the same order. */
  lemma {:induction false} FilterSorted<T>(s: seq<T>, p: T -> bool, le: (T, T) -> bool)
    requires SortedBy(s, le)
    ensures SortedBy(Filter(s, p), le)
    decreases |s|
  {
    if |s| > 0 {
      var front := s[..|s| - 1];
      FilterSorted(front, p, le);
      var f := Filter(front, p);
      forall k | 0 <= k < |f| ensures le(f[k], s[|s| - 1]) {
        FilterCount(front, p, f[k]);
        assert f[k] in multiset(f);
        assert f[k] in multiset(front);
        var m :| 0 <= m < |front| && front[m] == f[k];
      }
    }
  }

  /** A list comprehension with `if p` and one with `if not p` together hold every element once. */
  lemma {:induction false} FilterPartition<T>(s: seq<T>, p: T -> bool, q: T -> bool)
    requires forall x :: q(x) == !p(x)
    ensures multiset(Filter(s, p)) + multiset(Filter(s, q)) == multiset(s)
    decreases |s|
  {
    if |s| > 0 {
      var init, x := s[..|s| - 1], s[|s| - 1];
      FilterPartition(init, p, q);
      assert s == init + [x];
      assert q(x) == !p(x);
    }
  }

  /** Sorting keeps a property that every element has. */
  lemma SortKeeps<T(!new)>(s: seq<T>, le: (T, T) -> bool, p: T -> bool)
    requires TotalPreorder(le) && forall k :: 0 <= k < |s| ==> p(s[k])
    ensures forall k :: 0 <= k < |Sort(s, le)| ==> p(Sort(s, le)[k])
  {
    var r := Sort(s, le);
    forall k | 0 <= k < |r| ensures p(r[k]) {
      assert r[k] in multiset(r);
      var m :| 0 <= m < |s| && s[m] == r[k];
    }
  }
}
