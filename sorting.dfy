/** `Array.prototype.filter` and the stable `Array.prototype.sort` with a
    comparator, which every list view of the source uses. A comparator
    `cmp` is modelled by the relation `le(a, b)` meaning `cmp(a, b) <= 0`, that
    is "`a` may stay in front of `b`". */
module Sorting {

  /** `s.filter(keep)`. */
  function Filter<T>(s: seq<T>, keep: T -> bool): (r: seq<T>)
    ensures |r| <= |s|
    ensures forall i :: 0 <= i < |r| ==> r[i] in s && keep(r[i])
    ensures forall i :: 0 <= i < |s| && keep(s[i]) ==> s[i] in r
    ensures multiset(r) <= multiset(s)
  {
    if s == [] then []
    else
      assert s == [s[0]] + s[1..];
      if keep(s[0]) then [s[0]] + Filter(s[1..], keep)
      else Filter(s[1..], keep)
  }

  /** Filtering distributes over concatenation, so it keeps the input's order. */
  lemma {:induction false} FilterAppend<T>(a: seq<T>, b: seq<T>, keep: T -> bool)
    ensures Filter(a + b, keep) == Filter(a, keep) + Filter(b, keep)
    decreases |a|
  {
    if a != [] {
      FilterAppend(a[1..], b, keep);
      FilterConsAppend(a, b, keep);
    } else {
      assert a + b == b;
    }
  }

  lemma FilterConsAppend<T>(a: seq<T>, b: seq<T>, keep: T -> bool)
    requires a != []
    requires Filter(a[1..] + b, keep) == Filter(a[1..], keep) + Filter(b, keep)
    ensures Filter(a + b, keep) == Filter(a, keep) + Filter(b, keep)
  {
    var ab := a + b;
    TailOfAppend(a, b, ab);
    if keep(a[0]) {
      assert Filter(ab, keep) == [a[0]] + Filter(a[1..] + b, keep);
      AppendAssoc([a[0]], Filter(a[1..], keep), Filter(b, keep));
    } else {
      assert Filter(ab, keep) == Filter(a[1..] + b, keep);
    }
  }

  lemma TailOfAppend<T>(a: seq<T>, b: seq<T>, ab: seq<T>)
    requires a != [] && ab == a + b
    ensures ab != [] && ab[0] == a[0] && ab[1..] == a[1..] + b
  {
  }

  lemma AppendAssoc<T>(a: seq<T>, b: seq<T>, c: seq<T>)
    ensures a + (b + c) == (a + b) + c
  {
  }

  /** Every element goes to exactly one side of a filter and its negation. */
  lemma {:induction false} FilterPartition<T>(s: seq<T>, keep: T -> bool, drop: T -> bool)
    requires forall i :: 0 <= i < |s| ==> drop(s[i]) == !keep(s[i])
    ensures |Filter(s, keep)| + |Filter(s, drop)| == |s|
  {
    if s != [] {
      FilterPartition(s[1..], keep, drop);
    }
  }

  /** A filter that keeps everything is the identity. */
  lemma {:induction false} FilterKeepAll<T>(s: seq<T>, keep: T -> bool)
    requires forall i :: 0 <= i < |s| ==> keep(s[i])
    ensures Filter(s, keep) == s
  {
    if s != [] {
      FilterKeepAll(s[1..], keep);
    }
  }

  /** A stricter test keeps no more elements. */
  lemma {:induction false} FilterNarrower<T>(s: seq<T>, wide: T -> bool, narrow: T -> bool)
    requires forall i :: 0 <= i < |s| && narrow(s[i]) ==> wide(s[i])
    ensures |Filter(s, narrow)| <= |Filter(s, wide)|
  {
    if s != [] {
      FilterNarrower(s[1..], wide, narrow);
    }
  }

  /** Two filters in a row are one filter on the conjunction. */
  lemma {:induction false} FilterFilter<T>(s: seq<T>, f: T -> bool, g: T -> bool, both: T -> bool)
    requires forall i :: 0 <= i < |s| ==> both(s[i]) == (f(s[i]) && g(s[i]))
    ensures Filter(Filter(s, f), g) == Filter(s, both)
  {
    if s != [] {
      FilterFilter(s[1..], f, g, both);
    }
  }

  // ---------------------------------------------------------------------------
  // Stable sort
  // ---------------------------------------------------------------------------

  /** Each element may stay in front of its successor. */
  predicate SortedBy<T>(s: seq<T>, le: (T, T) -> bool) {
    forall i, j :: 0 <= i < |s| && 0 <= j < |s| && j == i + 1 ==> le(s[i], s[j])
  }

  /** The comparator decides every pair of elements of `s` (no `NaN`). */
  predicate TotalOn<T>(s: seq<T>, le: (T, T) -> bool) {
    forall i, j :: 0 <= i < |s| && 0 <= j < |s| ==> le(s[i], s[j]) || le(s[j], s[i])
  }

  /** `le` is transitive on the elements of `s`. */
  predicate TransitiveOn<T>(s: seq<T>, le: (T, T) -> bool) {
    forall i, j, k ::
      (0 <= i < |s| && 0 <= j < |s| && 0 <= k < |s| && le(s[i], s[j]) && le(s[j], s[k]))
      ==> le(s[i], s[k])
  }

  /** A list sorted under a transitive order has every pair in order, not
      only neighbours. */
  lemma SortedPairs<T>(s: seq<T>, le: (T, T) -> bool)
    requires SortedBy(s, le)
    requires TransitiveOn(s, le)
    ensures forall i, j :: 0 <= i < j < |s| ==> le(s[i], s[j])
  {
    forall i, j | 0 <= i < j < |s| ensures le(s[i], s[j]) {
      SortedPairsFrom(s, le, i, j);
    }
  }

  lemma {:induction false} SortedPairsFrom<T>(s: seq<T>, le: (T, T) -> bool, i: nat, j: nat)
    requires SortedBy(s, le)
    requires TransitiveOn(s, le)
    requires i < j < |s|
    ensures le(s[i], s[j])
    decreases j - i
  {
    assert le(s[j - 1], s[j]);
    if i < j - 1 {
      SortedPairsFrom(s, le, i, j - 1);
    }
  }

  /** Inserting `x` in front of the first element it may precede. */
  function Insert<T>(x: T, r: seq<T>, le: (T, T) -> bool): (res: seq<T>)
    ensures |res| == |r| + 1
    ensures multiset(res) == multiset(r) + multiset{x}
    ensures res != [] && (res[0] == x || (r != [] && res[0] == r[0]))
  {
    if r == [] then [x]
    else if le(x, r[0]) then [x] + r
    else
      assert r == [r[0]] + r[1..];
      [r[0]] + Insert(x, r[1..], le)
  }

  /** The stable sort of `s` under `le`: an insertion sort, which keeps equal
      elements in their input order, as `Array.prototype.sort` does. */
  function Sort<T>(s: seq<T>, le: (T, T) -> bool): (r: seq<T>)
    ensures multiset(r) == multiset(s)
    ensures |r| == |s|
  {
    if s == [] then []
    else
      assert s == [s[0]] + s[1..];
      Insert(s[0], Sort(s[1..], le), le)
  }

  lemma {:induction false} InsertSorted<T>(x: T, r: seq<T>, le: (T, T) -> bool)
    requires SortedBy(r, le)
    requires forall y :: y in r ==> le(x, y) || le(y, x)
    ensures SortedBy(Insert(x, r, le), le)
    decreases |r|
  {
    if r != [] && !le(x, r[0]) {
      InsertSorted(x, r[1..], le);
      var tail := Insert(x, r[1..], le);
      assert le(r[0], x);
      assert |r| > 1 ==> le(r[0], r[1]);
    }
  }

  /** When the comparator decides every pair, the sort's output is sorted;
      together with `Sort`'s own contract it is a sorted permutation. */
  lemma {:induction false} SortSorted<T>(s: seq<T>, le: (T, T) -> bool)
    requires TotalOn(s, le)
    ensures SortedBy(Sort(s, le), le)
  {
    if s != [] {
      assert TotalOn(s[1..], le) by {
        forall i, j | 0 <= i < |s[1..]| && 0 <= j < |s[1..]|
          ensures le(s[1..][i], s[1..][j]) || le(s[1..][j], s[1..][i])
        {
          assert s[1..][i] == s[i + 1] && s[1..][j] == s[j + 1];
        }
      }
      SortSorted(s[1..], le);
      var r := Sort(s[1..], le);
      forall y | y in r ensures le(s[0], y) || le(y, s[0]) {
        assert y in multiset(r);
        assert y in multiset(s);
        var j :| 0 <= j < |s| && s[j] == y;
        assert le(s[0], s[j]) || le(s[j], s[0]);
      }
      InsertSorted(s[0], r, le);
    }
  }

  /** The sort is stable in the sense that an input already in order is left
      exactly as it is, including ties (so a comparator that calls every
      pair equal leaves the list untouched). */
  lemma {:induction false} SortOfSorted<T>(s: seq<T>, le: (T, T) -> bool)
    requires SortedBy(s, le)
    ensures Sort(s, le) == s
  {
    if s != [] {
      assert SortedBy(s[1..], le) by {
        forall i | 0 < i < |s[1..]| ensures le(s[1..][i - 1], s[1..][i]) {
          assert s[1..][i - 1] == s[i] && s[1..][i] == s[i + 1];
        }
      }
      SortOfSorted(s[1..], le);
      assert |s| > 1 ==> le(s[0], s[1]);
      assert [s[0]] + s[1..] == s;
    }
  }
}
